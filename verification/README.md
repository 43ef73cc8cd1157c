# Verified model of the MSI snooping simulator

The simulator replays a memory trace on several processors. Each processor has a private
LRU cache, a trace queue and a snoop queue; one bus serialises the accesses that need a
transaction and broadcasts each transaction to all other processors. Everything runs
concurrently: one thread per processor, a bus thread, and an input thread that splits the
trace. Snoop queues are emptied only at the start of a processor's next access, so caches
lag behind the bus. This project models that program and proves what survives the lag.
`dafny verify dfyconfig.toml` checks all of it.

## How the model is layered

| layer | modules | what it is |
|---|---|---|
| values | `Msi`, `Lru`, `Protocol` | lines, transactions, the cache as a recency list, and what one snoop or one access does to it |
| cache | `LruCache`, `LruRecency`, `LruInclusion`, `CoreRecency` | the list-and-index class, proved equal to the recency list; what any sequence of calls, and any history of snoops and accesses, leaves in it |
| step machine | `Machine` | the whole simulator; a run is any sequence of enabled steps, hence any interleaving |
| protocol theorems | `Coherence`, `AtomicMsi`, `Broadcast`, `AccessOrder`, `Eager`, `Termination`, `Completion`, `Races` | properties of every run and every reachable state, and where they stop |
| accounting | `Ledger`, `Accounts`, `ProgramOrder`, `Limits`, `RawEntries` | what the statistics add up to, exactly when, and what unaligned writes leave behind |
| capacity | `Capacity`, `CapacityRise`, `Readers` | what a larger cache does for one processor, and for the whole simulator |
| threads | `Threads`, `ThreadSafety`, `ThreadRuns`, `ThreadSchedules` | program counters and locks; every run of them is a run of the step machine, none deadlocks, and they reach whatever a schedule reaches |
| objects | `Simulator`, `Driver`, `Schedules` | `Processor` and `Bus` as classes updated in place, proved to carry out runs of the step machine |
| input | `Demux` | thread renaming, splitting and address naming |

The central notion is the *effective* state of a line at a processor: the local state
(absent counts as invalid) after applying every transaction still on its way, whether in
the snoop queue, being broadcast, or on the bus.

The layers connect: `Simulator.Bus` and `Simulator.Processor` hold a `LruCache.LRUCache`
whose ghost value is an `Lru.Cache`; every object operation is proved to move a ghost
`Machine.Sys` by a run of the machine (`Schedules.ServeIsRun`, `Schedules.BroadcastIsRun`);
every interleaving of the locked threads is a run of the same machine
(`ThreadSafety.ExecRefines`), and the threads reach whatever an uninterrupted schedule
reaches (`ThreadSchedules.ThreadsFollowSchedules`). So each theorem about reachable states holds
of both, and so does each race.

## What turned out not to hold

- *One writer at any instant* is false: for every line there is a reachable state with two
  modified copies, of the step machine (`Races.ActualStatesAreNotExclusive`) and of the
  locked threads (`ThreadSchedules.ThreadsAreNotExclusive`). It holds of effective states.
  Of actual states it holds if and only if nothing on the line is pending at the owner and no
  exclusive request on it is pending at the other processor (`Races.ExclusionIff`).
- *Effective exclusion for every line* is false for the line at address zero, whose null tag
  makes each snoop skip it; it holds for a line if and only if the line is not that one
  (`Races.SingleWriterIff`).
- *Every access is a textbook MSI access* is false while transactions are pending at the
  requester, which is the race described in README.md:125 of the repository
  (`Races.StaleHit`, `ThreadSchedules.ThreadReadsStale`). `AtomicMsi.CommitIsAtomicIff` gives the exact condition. When it fails
  and the access is a local hit, the other processors do not move at all; when it fails and
  the access goes to the bus, the others move as in the textbook (`AtomicMsi.DisturbedCommit`).
- *An access costs at most one miss* is false for addresses that are not line-aligned, because
  a write stores its line under the raw address (src/msi.h:214) while everything else uses
  the rounded one. `realloop` feeds raw addresses, so real traces are affected.
  `Accounts.MissesOfAccess` gives the exact number and `Accounts.AtMostOneMissIff` the exact
  condition on the cache. Over all runs whose writes go to lines or to one address, the
  misses stay within the records, and the bus transactions equal misses plus upgrades, if and
  only if that address is a line (`Limits.MissRateIff`, `Limits.TrafficIff`).
- *Modified lines and invalidations balance for any write address* is false for a cache of one
  entry, where the raw store evicts the very line being written. Over all runs whose writes go
  to lines or to one address, each balance holds if and only if the capacity is at least two
  or that address is a line (`Limits.ModifiedBalanceIff`, `Limits.InvalidBalanceIff`).
- *More cache never means more misses* is true of one cache (`LruInclusion`) and of one
  processor under any history of snoops and accesses (`Capacity`), but false of the simulator:
  a miss makes other caches promote the line, so what a smaller cache misses can serve another
  processor later. Twelve reads by two processors miss 10 times with two lines per cache and 11
  times with three (`CapacityRise.MoreCacheMoreMisses`). Over all schedules and capacities the
  reported misses never rise with the capacity if and only if there is at most one processor
  (`CapacityRise.MissesNeverRiseIff`).

## Model

| member | source | states |
|---|---|---|
| Msi.Convert | src/msi.h:10 | the multiple of 64 at or below the address: the 64-byte line that contains it |
| Msi.SameLineIff | src/consts.h:1 | two addresses share a line if and only if they agree in all but the last six bits |
| Msi.ConvertIsIdentityOnLines | src/msi.h:10 | exactly the line-aligned addresses are their own line, so an aligned write stores under its tag |
| Msi.SnoopTable | src/msi.h:155-184 | snooping never raises a state |
| Lru.PutFind | src/cache.h:69-94 | after a put the key has the new line, the victim is gone, and every other key is as before |
| Lru.PutWf | src/cache.h:69-94 | a put keeps keys distinct and the size within capacity |
| Lru.GetFind | src/cache.h:42-67 | a lookup changes no key's line unless it creates one, and then only the victim goes |
| Lru.GetWf | src/cache.h:42-67 | a lookup keeps keys distinct and the size within capacity |
| LruCache.AgreeDistinct | src/cache.h:97-98 | an index whose entries point at the live nodes holding their keys forces distinct keys in the list |
| LruCache.IndexIsFind | src/cache.h:43-66 | the index answers membership and lookup exactly as a search of the list, so a present key always has a live node |
| LruCache.UnlinkShown | src/cache.h:12-14 | erasing a node removes exactly its key from the list |
| LruCache.LRUCache.constructor | src/cache.h:18-21 | an empty cache of the given capacity |
| LruCache.LRUCache.Promote | src/cache.h:10-16 | the node's entry moves to the front, the others keep their order, and index and list still agree |
| LruCache.LRUCache.Get | src/cache.h:42-67 | list and index together refine the lookup on the recency list |
| LruCache.LRUCache.Put | src/cache.h:69-94 | list and index together refine the put on the recency list, counters included |
| LruRecency.MostRecentIsUnique | src/cache.h:42-94 | "the cap most recently touched keys, most recent first" leaves no choice |
| LruRecency.MostRecentSize | src/cache.h:73-87 | that list has min(cap, distinct touched keys) entries |
| LruRecency.ContentsAreMostRecent | src/cache.h:42-94 | for every sequence of calls the contents are exactly the most recently touched keys in order, a touch being a put, a hit or a creating lookup |
| LruRecency.ContentsAreLastStored | src/cache.h:42-94 | each resident key holds the line stored last under it |
| LruRecency.VictimIsLeastRecent | src/cache.h:73-81 | the victim is the least recently touched resident key |
| LruRecency.MissCounters | src/cache.h:71-88 | cold misses equal the number of resident keys and never exceed the capacity; capacity misses equal the evictions |
| CoreRecency.SnoopTouches | src/msi.h:152-185 | hearing of a line moves it to the front if it is resident, and moves nothing otherwise |
| CoreRecency.ReadTouches | src/msi.h:190-203 | a read, to any address, touches its line once |
| CoreRecency.WriteTouches | src/msi.h:204-217 | a write, to any address, touches its line, the raw address, and its line again |
| CoreRecency.HistoryIsMostRecent | src/msi.h:143-317 | after every history the cache holds exactly the keys touched most recently by snoops, reads and writes, most recent first |
| CoreRecency.HistoryCounts | src/cache.h:71-88 | after every history cold misses equal the resident entries and capacity misses equal the evictions |
| CoreRecency.ReachableRecency | src/msi.h:143-317 | both, in every reachable state |
| LruInclusion.ApplyDominated | src/cache.h:42-94 | one call on a smaller and a larger cache keeps the smaller list inside the larger and its misses at least as many |
| LruInclusion.LargerCacheNeverMissesMore | src/cache.h:42-94 | stack property for every sequence of calls and all capacities: inclusion, and neither total nor capacity misses rise with the capacity |
| Capacity.LargerReplayDominates | src/msi.h:143-317 | for every history of snoops and accesses, unaligned writes included: the larger cache includes the smaller, holds every line in at least as strong a state, and has missed no more often |
| Readers.ReadersCount | src/msi.h:190-203 | for two processors that only read, the misses of the simulator are those of the two recency lists, in which hearing of a line promotes it |
| CapacityRise.LoneProcessorGains | src/main.cpp:100-109 | under any schedule a lone processor with more cache misses no more often |
| CapacityRise.MoreCacheMoreMisses | src/main.cpp:100-109 | with two processors or more there is a schedule on which three lines per cache miss more often than two |
| CapacityRise.MissesNeverRiseIff | src/main.cpp:100-120 | over all schedules and all pairs of capacities the misses added up never rise with the capacity if and only if there is at most one processor |
| Protocol.SnoopEffect | src/msi.h:148-186 | a snoop moves one line by the table and neither adds nor drops a key |
| Protocol.SnoopKeepsWf | src/msi.h:148-186 | a snoop keeps every stored tag equal to the line of its key |
| Protocol.DrainEffect | src/msi.h:143-189 | emptying a queue moves every line as folding the table over the queue |
| Protocol.FoldLowers | src/msi.h:155-184 | no queue of snoops raises a state |
| Protocol.LookEffect | src/msi.h:190-217 | the line handed to the bus has the rounded tag and the local state; it counts as new exactly when absent, or null |
| Protocol.LookOthers | src/msi.h:190-217 | lookups keep every other line or lose it to an eviction |
| Protocol.CommitEffect | src/msi.h:190-217 | an access leaves its line upgraded and issues exactly the transaction its old state calls for |
| Protocol.CommitOthers | src/msi.h:263-317 | an access keeps every other line's state or evicts it |
| Machine.ExecWf | src/msi.h:143-317 | tag invariant over all runs, unaligned writes included: an entry under k stores the tag of k's line, and every queued transaction carries an aligned tag |
| Machine.BusStepPending | src/msi.h:246-261 | a bus step changes no processor's sequence of transactions to come |
| Machine.QuietStep | src/msi.h:143-261 | every step other than a commit leaves every effective state alone |
| Machine.CommitAtOther | src/msi.h:309-314 | at another processor a commit acts as one snoop on the effective state |
| Machine.CommitAtSelf | src/msi.h:273-314 | at the requester only what was already pending applies to the upgraded line |
| Coherence.SingleWriterStep | src/msi.h:143-336 | every step keeps effective exclusion |
| Coherence.SingleWriterAlways | src/msi.h:143-336 | in every reachable state of every interleaving, a line effectively modified at one processor is effectively invalid at all others |
| Coherence.UndisturbedSingleWriter | src/msi.h:143-336 | with nothing on the line pending at the owner and no exclusive request on it pending at the other, the actual copies are exclusive |
| Coherence.SettledSingleWriter | src/msi.h:143-336 | in particular where nothing about the line is pending at either |
| Coherence.DrainedSingleWriter | src/msi.h:143-189 | once everything on its way is applied, the actual copies are exclusive |
| Coherence.OwnershipAlways | src/msi.h:274-314 | an effective owner queued the last transaction on the line, and it was exclusive; an effective holder queued one that no other processor's exclusive request has followed |
| AtomicMsi.AtomicAccessKeepsSingleWriter | src/msi.h:155-184 | the textbook reference itself: exclusive, and the requester ends with the right it asked for |
| AtomicMsi.QuietView | src/msi.h:143-261 | every step other than a commit is a stutter on the effective states |
| AtomicMsi.CommitViewElsewhere | src/msi.h:190-217 | on lines it does not address, a commit is a stutter or a silent eviction at the requester |
| AtomicMsi.CommitIsAtomicIff | src/msi.h:263-317 | on its own line a commit is the textbook access if and only if nothing on the line is pending at a writing requester, and no exclusive request on it at a reading one |
| AtomicMsi.DisturbedCommit | src/msi.h:263-317 | otherwise it is a hit that moves nothing, or it moves the others as the textbook does and leaves the requester at or below its textbook state |
| AtomicMsi.RaceFreeRunIsAtomic | src/msi.h:190-336 | every race-free run, on effective states, is a run of atomic MSI with silent evictions |
| Broadcast.BroadcastIsComplete | src/msi.h:246-336 | at all times, snooped plus pending equals the bus log without the processor's own entries: each transaction reaches each other processor exactly once, in order |
| Broadcast.ProcessorsAgreeOnOrder | src/msi.h:319-336 | any two processors have received third-party transactions in the same order |
| Schedules.ServeIsRun | src/msi.h:225-242 | taking a trace, draining, looking up and committing without interruption is a run of the machine |
| Schedules.RoundIsRun | src/msi.h:230-240 | so is a round of a processor's loop, which drops a record that is neither a read nor a write |
| Schedules.BroadcastIsRun | src/msi.h:246-261 | popping and offering a transaction to everyone but its sender is a run of the machine |
| Eager.LazyEqualsEager | src/msi.h:143-207 | for every schedule of arrivals, rounds and broadcasts, dropped records included, draining at the next access gives the same caches, recency order, flushes, misses, bus queue and log as snooping on delivery |
| Eager.SchedulesAgree | src/msi.h:143-207 | so from the start of the program every schedule ends alike, lazily and eagerly |
| Eager.LazyIsRun | src/msi.h:225-261 | every such schedule is a run of the machine |
| Completion.CanActIffEnabled | src/msi.h:228-261 | with the bus free, an arrival, a round and a broadcast are possible if and only if the machine can make their first step: a trace is waiting, the bus queue is not empty |
| Completion.EveryScheduleFinishes | src/msi.h:225-261 | every schedule can be carried on, by at most as many rounds and broadcasts as there is work, until all traces are served and the bus is empty |
| Races.ActualStatesAreNotExclusive | src/msi.h:296-314 | for every line two processors can hold it modified at the same time |
| Races.ExclusionIff | src/msi.h:143-336 | over all reachable states, a line modified at one processor is invalid at another if and only if nothing on it is pending at the first and no exclusive request on it at the second; each of the three other combinations has a reachable counterexample |
| Races.SingleWriterIff | src/msi.h:153 | effective exclusion holds in all reachable states if and only if the line is not the null one |
| Races.StaleHit | README.md:125 | the race the authors describe is reachable: a read that hits on a line that is effectively invalid |
| Termination.RunsAreBounded | src/msi.h:225-261 | a run without new input is at most as long as a bound computed from its first state |
| Termination.ProgressIsBounded | src/msi.h:225-261 | twice the outstanding traces plus the bus queue drops at every completed access and every pop, and never rises |
| Termination.StuckIffFinished | src/msi.h:225-261 | without input no step is possible if and only if all traces are served and the bus is empty; only snoop queues may be left |
| Ledger.SnoopCount | src/msi.h:157-184 | how a snoop moves the number of resident lines in each state, the flushes and the misses |
| Ledger.CommitCount | src/msi.h:190-217 | how an access moves the number of resident lines in each state, up to the lines it evicts |
| Ledger.CommitStats | src/msi.h:299-306 | an access flushes nothing and counts a coherence miss exactly when its line is resident, invalid and not null |
| Accounts.ModifiedLinesBalance | src/msi.h:138-297 | exclusive requests = flushes + modified lines evicted + modified lines resident, over every history |
| Accounts.InvalidationsBalance | src/msi.h:163-306 | invalidations by remote writes = coherence misses + invalid lines evicted + invalid lines resident, over every history |
| Accounts.MissesOfAccess | src/msi.h:190-217 | the exact number of misses of one access for any address, from the cache before it |
| Accounts.AtMostOneMissIff | src/msi.h:190-217 | an access counts at most one miss if and only if it stores no raw entry, or its line is valid and the cache has room for both |
| Accounts.TrafficBalances | src/msi.h:279-314 | with aligned writes, misses never exceed accesses and bus transactions = misses + S-to-M upgrades |
| Accounts.HistoriesExplain | src/msi.h:143-317 | in every reachable state each core is what its history makes of an empty one, and the bus log holds the transactions the history calls for |
| Accounts.ReachableBalances | src/msi.h:138-306 | both line balances in every reachable state, against the transactions on the bus |
| Accounts.ReachableTraffic | src/msi.h:279-314 | the traffic balance in every reachable state, against the transactions on the bus |
| Limits.ModifiedBalanceIff | src/msi.h:214 | over all runs whose writes go to lines or to the address a, modified lines balance at every processor if and only if the cache has room for two entries or a is a line |
| Limits.InvalidBalanceIff | src/msi.h:214 | over the same runs invalidations balance if and only if the same condition holds |
| Limits.OneWriteMissesOnceIff | src/msi.h:204-217 | one write to an empty cache counts at most one miss if and only if its address is a line |
| Limits.RateAboveOne | src/main.cpp:107-109 | for every unaligned address there is a run of one record that reports more misses than records |
| Limits.MissRateIff | src/main.cpp:100-109 | over all runs whose writes go to lines or to the address a, the misses added up never exceed the records they are divided by if and only if a is a line |
| Limits.TrafficIff | src/msi.h:279-314 | over the same runs, bus transactions equal misses plus upgrades at every processor if and only if a is a line |
| RawEntries.RawEntriesAreNeverRead | src/msi.h:152-214 | unaligned keys are never looked up: two systems that differ only in the lines stored under them go through every run alike, with the same transactions, statistics, queues, recency orders and aligned lines |
| ProgramOrder.ProgramOrderAlways | src/msi.h:219-242 | in every run, the accesses performed, the one in hand and those waiting are exactly those handed to the processor, each once and in order |
| AccessOrder.AccessIsWhole | src/msi.h:190-217 | in every run each commit is preceded by the taking of its trace, then by snoops only until the queue is empty, and is made on the cache as the drain left it, while the bus is not broadcasting |
| ProgramOrder.FinishedRunPerformsTrace | src/main.cpp:75-97 | under any schedule, a finished run has each processor perform exactly its thread's accesses in program order |
| ProgramOrder.HistoryWrites | src/msi.h:225-242 | a processor writes only addresses that arrived as writes |
| ProgramOrder.MissRateAtMostOne | src/main.cpp:100-109 | when all arriving writes are aligned, the misses added up never exceed the number of records they are divided by |
| Threads.StepInv | src/msi.h:143-336 | every action of every thread keeps lock ownership, the tests made before locking, and the lookups made before taking the bus lock |
| Threads.PushSimulates | src/msi.h:263-317 | the push under the bus lock is the commit, although the lookups were made before the lock was taken |
| Threads.ActionSimulates | src/msi.h:143-336 | every action of every thread is a stutter or one step of the machine |
| ThreadSafety.ExecRefines | src/msi.h:143-336 | from any state, every interleaving of the threads is a run of the machine, of exactly the steps its actions complete |
| ThreadSafety.ThreadsRefineMachine | src/main.cpp:117-128 | so every reachable state of the threads stands for a reachable state of the machine |
| ThreadRuns.ThreadsKeepProgramOrder | src/main.cpp:75-97 | in every run of the threads, what a processor has performed, has in hand and has waiting, and what the input thread is about to hand it, are the accesses read for it, each once and in order |
| ThreadRuns.ThreadsPerformTrace | src/main.cpp:75-97 | once a run of the threads that reads a trace is done, each processor has performed exactly its thread's accesses in program order |
| ThreadRuns.ThreadMissRateAtMostOne | src/main.cpp:100-109 | at any moment of any run of the threads whose writes are aligned, the misses in all caches together are within the records read |
| ThreadRuns.ThreadProgressIsBounded | src/msi.h:225-261 | while nothing new is handed over, accesses completed and transactions sent are within twice the outstanding traces plus the bus queue, however the threads interleave |
| ThreadSafety.ThreadsAreCoherent | src/msi.h:143-336 | in every reachable state of the threads, exclusion and ownership of the caches they actually have, also between a thread's lookups and its push |
| ThreadSchedules.ThreadsFollowSchedules | src/msi.h:225-261 | whatever a schedule of rounds, broadcasts and arrivals reaches, the locked threads reach |
| ThreadSchedules.ThreadsAreNotExclusive | src/msi.h:296-314 | two threads can hold the same line modified, for every line |
| ThreadSchedules.ThreadReadsStale | README.md:125 | a thread that has drained its queue can be about to hit on a line that is effectively invalid |
| ThreadSafety.NeverPopsEmpty | src/msi.h:230-255 | a queue found non-empty before its lock was taken is still non-empty at the pop |
| ThreadSafety.RanksRise | src/msi.h:145-334 | a thread that holds a lock only waits for one of higher rank: trace lock, bus lock, snoop-queue lock |
| ThreadSafety.LocksAreHeld | src/msi.h:145-334 | exactly which thread holds which lock where: the trace lock through a whole access, the queue lock through a drain or an append, the bus lock through a push or a whole broadcast |
| ThreadSafety.StuckIffBlocked | src/msi.h:145-334 | in every reachable state a thread cannot move if and only if another thread holds the lock it waits for |
| ThreadSafety.NoDeadlock | src/msi.h:145-334 | in every reachable state with a blocked thread, the holder of some lock can move |
| Demux.FirstSeenMembers | src/main.cpp:84-89 | exactly the thread ids of the trace get a number |
| Demux.FirstSeenNoRepeats | src/main.cpp:84-89 | no id gets two numbers |
| Demux.FirstSeenInOrder | src/main.cpp:84-89 | numbers follow first appearance |
| Demux.OwnIsSubsequence | src/main.cpp:90-94 | a queue holds exactly its thread's records, each with its place in the trace, in program order |
| Demux.DemuxRoundTrip | src/main.cpp:71-94 | merging the queues by number and undoing the renaming gives back the trace |
| Demux.Rename | src/main.cpp:84-90 | the renaming and its inverse stay inverse to each other, and a new id gets the next number |
| Demux.NameAddresses | src/main.cpp:36-53 | the k-th new name gets 0x10000000 + 1024 k; so equal names get equal addresses, different names different ones, all line-aligned and not null |
| Demux.AddressesTellNames | src/main.cpp:46-50 | addresses are equal if and only if the names are, and every address is a line other than the null one |
| Simulator.SumStatCounters | src/msi.h:39-47 | each of the four counters of the total is the sum of that counter over the processors |
| Simulator.SumStatMisses | src/main.cpp:100-107 | the three miss counters of the total are the misses of all processors |
| Simulator.Processor.constructor | src/msi.h:72 | an idle processor with an empty cache and zero statistics |
| Simulator.Processor.AddTrace | src/msi.h:219-224 | the trace joins the end of the queue and nothing else changes |
| Simulator.Processor.PushStats | src/msi.h:83-87 | cold and capacity misses become those of the cache, each in its own field, and coherence misses and flushes stay; so the cold misses are the resident entries |
| Simulator.Processor.SnoopRequest | src/msi.h:148-186 | the in-place handling of one transaction refines the snoop on values |
| Simulator.Processor.PullRequest | src/msi.h:143-189 | the loop leaves the processor drained: the queue folded over the core, oldest first, history extended |
| Simulator.Processor.Read | src/msi.h:190-203 | drain, then commit a read; the bus queue grows by exactly the transaction issued |
| Simulator.Processor.Write | src/msi.h:204-217 | drain, then commit a write; the bus queue grows by exactly the transaction issued |
| Simulator.Processor.Turn | src/msi.h:232-239 | the oldest trace is carried out, or dropped when it is neither a read nor a write |
| Simulator.Bus.constructor | src/msi.h:112-122 | the objects stand for the initial state of the machine, no two sharing anything |
| Simulator.Bus.Push | src/msi.h:263-317 | the in-place push refines the push on values: upgraded line, coherence miss, queued transaction |
| Simulator.Bus.Process | src/msi.h:319-336 | every processor but the sender receives the transaction once, at the end of its queue |
| Simulator.Bus.Turn | src/msi.h:252-258 | one turn of the bus loop is one broadcast of the machine |
| Simulator.Bus.ServeNext | src/msi.h:230-240 | one turn of a processor's loop is one round of the machine: a serve, or a drop |
| Simulator.Bus.Totals | src/main.cpp:100-107 | each counter of the total is the sum of that counter over the processors, and its misses are all their misses |
| Driver.ReportedColdMisses | src/main.cpp:100-107 | in every reachable state the reported cold misses are the entries resident in all caches |
| Driver.RunCache | src/cache.h:42-94 | any calls on a cache object leave exactly the most recently touched keys in it |
| Driver.Act | src/msi.h:225-261 | an action on the objects moves them exactly as the action on values, and an impossible one changes nothing |
| Driver.Drive | src/main.cpp:117-138 | the objects end in exactly the state that the schedule, carried out on values from the start, ends in; and that state is reachable |
| Driver.CarryReaches | src/msi.h:225-261 | every schedule stays among the reachable states of the machine |
| Driver.ObjectsAreCoherent | src/msi.h:143-336 | so with empty queues a line modified in one cache object is invalid in every other |
| Driver.RealLoop | src/main.cpp:67-97 | reading a trace into the objects is a run that feeds each processor its thread's records in order; the renaming is in first-seen order and inverted by the second map |

## Left out

- Pin kit and samples: the vendored tracing kit and the workloads are not simulator logic.
- Command line, stream parsing, end-of-file behaviour, sleeping, exiting and thread creation: the input is a given sequence of records, and the endless loops are modelled by their bodies (`Turn`) and by the step machine.
- Printing and debug blocks; the unused list checks (src/cache.h:22-41); `wait_request`, which has no definition.
- Data values and write-back: lines hold no data, so nothing is said about values read.
- The hardware memory model: the unlocked emptiness tests are atomic reads here, and `push_stats` reading counters while processors may still run is not modelled as a race.
- Floating-point percentages: the integer inequality behind the miss rate is stated instead.
- Overflow of the `int` counters: counters are unbounded.
- Negative addresses and the uninitialised `cnt` of fresh lines: addresses are naturals, and a fresh line's `cnt` is 0; every access overwrites it before it is used.
- Capacity zero: a cache of capacity at least one is required, because evicting from an empty list is undefined in the original.
- `resize` on a non-empty cache: never happens; the capacity is fixed by the constructor.
- Threads.Next: the release of a lock is one action with the write before it, and the lookups of an access, which touch only the thread's own cache, are one action.
- LruCache.LRUCache.Get: omits the branch for a present key whose iterator is the list's end (src/cache.h:59-65), which `Valid` rules out; the class is modelled at its one instantiation.
- Simulator.Processor.Read: the bus pointer of a processor is a parameter of its methods rather than a field.
- Driver.RealLoop: requires at most as many distinct thread ids as processors, because the original indexes past its processors otherwise.
- Demux.NameAddresses: models the naming of addresses in `inputloop`; queueing is the same as in `realloop`.
- Eager.LazyEqualsEager: accesses are taken without interruption, since an eager processor would also snoop what arrives between draining and committing; runs with such interruptions are covered by the theorems on effective states.
