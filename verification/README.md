# Lethe, modelled and proved in Dafny

Lethe is a sharded, replicated, tiered cache of KV blocks. This project models its hard parts and
proves what they are for: where a block is routed and how little that changes when nodes die, how
the survivors restore the lost copies, what a crash leaves on the SSD, what the tiers and the
evictor do to the set of cached blocks, what the failure detector reports, how the RDMA send
buffers are shared, and how the vLLM connector plans loads and stores.

`dafny verify dfyconfig.toml` checks everything.

## How it is laid out

Code that changes things step by step is modelled as classes and loops whose contracts equate the
new state with a function of the old one. Those functions live in value modules, and what the
system promises is proved about them.

- **Routing.** `SuccessorOrder` defines a route without a ring: peers in the order of their nearest
  virtual node clockwise from the block. `Ring` shows that walking a sorted ring yields that order.
  `Routing` and `ClientRouting` are the C++ and Python routers, proved to return it.
- **SSD tier.** `SsdImage` is the mapped file, one machine store at a time, with crashes.
  `SsdBlockStore` is the slot allocator over it.
- **Tiers.** `TieredModel` is the store as a value, `BlockStore` and `TieredStore` the objects,
  `Sizes` the byte totals.
- **Eviction.** `EvictionPass` is one pass as a value. `EvictionRounds` says what each step counts and
  takes, `EvictionOutcome` when the target is met, `EvictionLosses` what is lost, `EvictionExamples`
  where either goes wrong. `Eviction` is the evictor.
- **Membership.** `FailureDetector` is the timed machine, `Membership` the object.
- **Replication.** `ReReplication` is the step machine whose steps are the lock regions of the code,
  `Replicator` the object, `Cluster` all surviving nodes together.
- **Node.** `Cache` is `Lookup`, `Insert` and the initial ring, tied to the cluster model.
- **RDMA.** `SendRing` is the buffer ring under any interleaving, `Rdma` the wire frame and the
  connection object.
- **Client.** `PrefixChain` is the prefix-chained block hash, `Connector` the scheduler-side plan.

## What is assumed

- BLAKE3 is an arbitrary function. Routing needs that no two different peers share a ring position;
  `TiesLeaveThePrimaryOpen` shows that without this the primary is not determined by the peers. The
  prefix chain needs that the hash does not collide on the inputs at hand.
- A block's bytes are a function of its id. An empty block on the SSD reads as absent;
  `EmptySsdBlockReadsAsMiss` and `ReadableIff` say exactly when. In `Cluster` payloads are not empty.
- Node ids are not empty: the router returns the empty string for "no route".
- Membership handlers are atomic steps. In the code the ring is rebuilt after the lock is dropped.
- The SSD file keeps its geometry between runs, and its stores take effect in source order.
- In `Cluster`, nothing is evicted. Copies may be promoted and demoted at any time.

## Where the code does not do what it says

- A comment in `membership.cpp` calls a new peer joining a membership change. The code adds the peer
  as alive and fires none, so ring and alive peers part ways exactly then (`AgreesThroughoutIff`).
- `cache.cpp` says that inserting a block already present counts as zero. It is counted again when
  it sits in another tier than the one it lands in (`AcceptedIff`, `PresentBlockAcceptedAgain`). An
  immediate repetition is never counted (`RepeatedInsertIsIdempotent`).
- `eviction.cpp` takes the bytes it counts as freed from the tier. They need not be, and then a pass
  stops above its target. `MeetsLowIff` says exactly when, for any tier and any copies elsewhere;
  `MeetsLowInOneRoundIff` when the visited blocks fit under the target, `MeetsLowWhenAcceptedIff` when
  slower tiers take every victim. It happens in three ways:
  - In a second round over the snapshot a pass meets blocks it has already demoted and counts them
    again (`SecondRoundCountsTwice`).
  - A DRAM pass that meets a block HBM has too takes the HBM copy and counts it; DRAM keeps the block
    (`DramPassTakesHbmCopy`).
  - An SSD pass counts the copies it erases from the other tiers (`SsdPassCountsBothCopies`).
- The second meeting can destroy the demoted block: in a DRAM pass although the SSD has room for the
  whole tier (`SecondRoundDestroys`, at the default watermarks `DefaultWatermarksLoseABlock`; exactly
  when: `DramKeepsIff`), and in an HBM pass although DRAM has (`HbmSecondRoundDestroys`; exactly when:
  `HbmKeepsIff`). `LosesNothingIff` is the exact condition for any pass.
- A visited block can leave DRAM before an unvisited one of which HBM has a copy too
  (`SecondChanceIff` says exactly when).
- `vllm_hook.py` loads the first blocks of a prompt, whichever blocks were promised to the scheduler.
  The two agree exactly when nothing was computed beforehand and the slots suffice, or nothing was
  promised and nothing waits from before (`LoadsWhatWasPromisedIff`, `PromisedBlockIsStored`).
- `ssd_block_store.cpp` reclaims a slot with an impossible size but leaves its magic in place, so a
  crash during the next Put into it is not atomic. A free slot takes Puts atomically if and only if its
  magic does not say live (`PutAtomicIff`). No image the program itself writes has such a slot
  (`HistoryAtomic`, `ZeroedFileIsClean`).
- The Python `HashRing.route` ends if and only if it wants no more peers than there are (`LoopEndsIff`).
  Where it ends it need not agree with the server (`ClientMatchesServer`).
- A re-replication round ends if and only if no candidate left has more than 1024 targets
  (`RoundEndsIff`); at R of 1024, or 1025 when the node is in every candidate's route, none has
  (`TargetsBound`).

## Model

| member | source | states |
|---|---|---|
| SuccessorOrder.AscendingIsPrefix | cache_server/src/routing.cpp:102-145 | a list of peers in ascending distance that no outsider beats is a prefix of the successor order: the order is determined by distances alone |
| SuccessorOrder.OrderAfterRemoval | cache_server/src/routing.cpp:78-145 | after any peers leave, the successor order is the old order with exactly those peers deleted |
| SuccessorOrder.RouteAfterRemoval | cache_server/src/routing.cpp:78-145 | exact minimal disruption for any set of departures: survivors stay in the route, first and in the same order; newcomers only fill the places left; a route that lost nobody does not change |
| SuccessorOrder.RouteAfterOneRemoval | cache_server/src/routing.cpp:78-145 | one departure: a route without the peer is unchanged, otherwise at most one newcomer is appended |
| Ring.SortBy | cache_server/src/routing.cpp:92-95 | a sort by any total order: ordered, a permutation, ties in any order |
| Ring.CollectWalks | cache_server/src/routing.cpp:124-144 | at every step of the clockwise walk the collected peers are those met, each once, by ascending distance, and nobody unmet is nearer |
| Ring.WalkEnds | cache_server/src/routing.cpp:124-144 | a walk that stopped because it had enough or ran out of nodes holds exactly the nearest peers, as many as asked for or as there are |
| Ring.TiesLeaveThePrimaryOpen | cache_server/src/routing.cpp:92-95 | when two different peers share a position, two rings meet the sort's contract and disagree on some block's primary: the no-ties hypothesis cannot be dropped |
| Routing.RouteSurvivesRemoval | cache_server/src/routing.cpp:78-145 | the same minimal disruption for routes of length max(1, R), including rings without virtual nodes |
| Routing.RouteCorrect | cache_server/src/routing.cpp:102-145 | binary search, wraparound and walk together give the ring-free route, which depends on the set of peers and not on their list order |
| Routing.Router.constructor | cache_server/src/routing.cpp:47-52 | a new router has no peers |
| Routing.Router.SetPeers | cache_server/src/routing.cpp:78-100 | the ring is sorted by hash and is, as a multiset, one entry per virtual node of each listed peer |
| Routing.Router.Search | cache_server/src/routing.cpp:110-122 | the search ends at the first entry with hash >= target, or past the end |
| Routing.Router.Walk | cache_server/src/routing.cpp:124-144 | the loop collects the distinct peers clockwise and stops at max(1, R) or after one full turn |
| Routing.Router.Route | cache_server/src/routing.cpp:102-145 | the route has min(max(1, R), number of distinct peers) members and is the ring-free route; without peers or virtual nodes there is none |
| ClientRouting.HashRing.constructor | client/lethe_client/routing.py:66-69 | the ring holds exactly the virtual nodes of the given peers, sorted |
| ClientRouting.HashRing.SetPeers | client/lethe_client/routing.py:71-80 | the ring is sorted by hash and then by peer, and is, as a multiset, one pair per virtual node of each listed peer |
| ClientRouting.HashRing.Search | client/lethe_client/routing.py:87-94 | the search ends at the first entry with hash >= target, or past the end |
| ClientRouting.HashRing.Walk | client/lethe_client/routing.py:96-105 | the loop stops after the first turn that meets one of its two conditions, with the distinct peers clockwise so far |
| ClientRouting.HashRing.Route | client/lethe_client/routing.py:82-105 | the client returns the nearest peers of the same ring-free order, as many as both guards allow |
| ClientRouting.Settled | client/lethe_client/routing.py:99-104 | after one lap of the ring the loop's list never changes again, however long it runs |
| ClientRouting.LoopEndsIff | client/lethe_client/routing.py:96-105 | over all numbers of turns, some turn meets a loop condition if and only if the peers wanted are no more than there are |
| ClientRouting.ClientMatchesServer | client/lethe_client/routing.py:82-105 | for every ring and block, whenever the client loop ends, client and server routes are equal if and only if n >= 1 and n <= 32 * vnodes or there are exactly 32 * vnodes peers |
| SsdImage.PutWritten | cache_server/src/ssd_block_store.cpp:184-227 | all stores of a Put, performed one by one, leave a live slot with exactly the block's id, bytes and epoch, marked as tier 2 |
| SsdImage.SlotAtomic | cache_server/src/ssd_block_store.cpp:136-170 | whatever the other slots look like, stopping after any prefix of the stores of an Erase, or of a Put into a slot whose magic is not live, gives all or nothing, and says at which store it commits |
| SsdImage.CrashAtomic | cache_server/src/ssd_block_store.cpp:136-170 | stopping after any prefix of the stores of a Put or an Erase and rebuilding gives all of the operation or none of it, in contents and in used bytes, and an image as clean as before |
| SsdImage.HistoryAtomic | cache_server/src/ssd_block_store.cpp:136-170 | over any number of crashes and restarts the file holds exactly the committed operations, applied in order |
| SsdImage.ZeroedFileIsClean | cache_server/src/ssd_block_store.cpp:42-112 | a zero-filled file is a valid starting point and holds no block |
| SsdImage.PutAtomicIff | cache_server/src/ssd_block_store.cpp:146-154 | a free slot takes every Put atomically at every store if and only if its magic does not say live |
| SsdImage.StaleIdResurfaces | cache_server/src/ssd_block_store.cpp:205-222 | after the size store of a Put into a slot with a stale live magic, contents and bytes are neither those before nor those after |
| SsdBlockStore.ScanBytes | cache_server/src/ssd_block_store.cpp:136-170 | the bytes counted by the scan are the total size of the blocks it finds |
| SsdBlockStore.PutKeeps | cache_server/src/ssd_block_store.cpp:184-227 | taking the top of the free list keeps: index injective, indexed and free slots a partition, live if and only if indexed, used bytes the live total |
| SsdBlockStore.EraseKeeps | cache_server/src/ssd_block_store.cpp:255-272 | the same for giving a slot back |
| SsdBlockStore.SsdBlockStore.constructor | cache_server/src/ssd_block_store.cpp:42-112 | opening any file indexes exactly the ids in it, with the right byte count, and establishes the allocator invariant unless an id is in it twice |
| SsdBlockStore.SsdBlockStore.RebuildIndex | cache_server/src/ssd_block_store.cpp:136-170 | the scan establishes the allocator invariant for every image with distinct ids |
| SsdBlockStore.SsdBlockStore.AllocSlot | cache_server/src/ssd_block_store.cpp:172-182 | the most recently freed slot first, then the next never-used slot, then none |
| SsdBlockStore.SsdBlockStore.ModelFacts | cache_server/src/ssd_block_store.cpp:274-276 | in every valid state used bytes equal the total of stored payloads and never exceed slots times payload size; stored blocks and free slots add up to all slots |
| SsdBlockStore.SsdBlockStore.Perform | cache_server/src/ssd_block_store.cpp:205-222 | the file after the loop is all stores applied; after each turn, a prefix of them |
| SsdBlockStore.SsdBlockStore.Put | cache_server/src/ssd_block_store.cpp:184-227 | accepted if and only if the payload fits and the id is present or a slot is free; stores the very block, its epoch included, under its id, by exactly the stores of the crash model; present ids and all other blocks are left alone |
| SsdBlockStore.SsdBlockStore.GetCopy | cache_server/src/ssd_block_store.cpp:229-253 | finds a block if and only if it is stored, and returns what Put stored under the id, with tier SSD |
| SsdBlockStore.SsdBlockStore.Erase | cache_server/src/ssd_block_store.cpp:255-272 | removes exactly the id, by exactly the stores of the crash model, returns its size, and leaves every other block as it was, epoch included |
| SsdBlockStore.SsdBlockStore.Snapshot | cache_server/src/ssd_block_store.cpp:278-297 | lists every stored block once, with its size |
| BlockStore.BlockStore.Put | cache_server/src/block_store.cpp:24-49 | a present id is accepted and left alone; a new block is accepted if and only if it fits; used bytes stay the total |
| BlockStore.BlockStore.Get | cache_server/src/block_store.cpp:51-61 | returns the stored bytes if and only if the id is present |
| BlockStore.BlockStore.Erase | cache_server/src/block_store.cpp:63-73 | removes exactly the id and returns the bytes given back |
| BlockStore.BlockStore.Snapshot | cache_server/src/block_store.cpp:79-96 | lists every stored block once, with its size |
| TieredModel.GetRefines | cache_server/src/tiered_store.cpp:75-158 | Get returns the block's bytes from a tier that had it, and misses exactly when no tier has it or an empty copy sits on the SSD; whatever it promotes, the set of present ids stays |
| TieredModel.GetFindsFastest | cache_server/src/tiered_store.cpp:75-101 | wherever a block has copies, the tier found is the fastest with one, and for an empty payload the slowest; so a block with an HBM copy is never promoted and no tier changes |
| TieredModel.DemoteRefines | cache_server/src/tiered_store.cpp:181-224 | demotion keeps the set of present ids and every capacity bound |
| TieredModel.EraseRefines | cache_server/src/tiered_store.cpp:226-240 | Erase removes the id from all tiers and all bookkeeping, returns exactly the bytes given back over all tiers, and touches no other block |
| TieredModel.ApplyRefines | cache_server/src/tiered_store.cpp:54-287 | each operation does to the set of ids what it would do to a plain set, and keeps the invariant of content, capacity and absent tiers |
| TieredModel.RunRefines | cache_server/src/tiered_store.cpp:75-240 | after every sequence of operations the store holds the ids a plain set would hold, and Get answers exactly from it with the right bytes |
| TieredModel.EmptySsdBlockReadsAsMiss | cache_server/src/tiered_store.cpp:93-101 | a present block reads as a miss if and only if its payload is empty and the SSD has a copy |
| TieredModel.ReadableIff | cache_server/src/tiered_store.cpp:75-101 | what Get can find is what is present, except empty blocks with a copy on the SSD |
| TieredModel.GetKeepsReadable | cache_server/src/tiered_store.cpp:75-158 | Get finds exactly the readable blocks, and no Get changes which those are, whatever it promotes |
| TieredModel.LandsInFastestThatFits | cache_server/src/tiered_store.cpp:160-179 | an insert lands in the fastest tier that takes it among the hinted one and those slower, and fails exactly when none does; there it adds the block if there is none, and nothing else changes, bookkeeping included |
| TieredModel.GetBookkeeping | cache_server/src/tiered_store.cpp:103-115 | a hit counts one access, in 32 bits, and sets the visited bit, a miss changes nothing, and no other block is affected |
| TieredModel.PromotionMoves | cache_server/src/tiered_store.cpp:117-151 | wherever else it has copies, a block is promoted if and only if it is hot and the next faster tier exists and takes it; then that tier has it, the one it was found in has not, and other tiers keep what they had |
| TieredModel.DemoteMoves | cache_server/src/tiered_store.cpp:181-224 | a block goes from the fastest tier that has it to the fastest slower tier that takes it, and stays if and only if there is none; other copies and other blocks stay |
| TieredModel.PutExclusive | cache_server/src/tiered_store.cpp:160-179 | starting with each id in one tier, Put keeps that if and only if the id is in no tier but the one it lands in |
| TieredModel.OthersExclusive | cache_server/src/tiered_store.cpp:75-240 | starting with each id in one tier, no other operation ever puts an id into two |
| TieredModel.WithinCapacity | cache_server/src/tiered_store.cpp:251-258 | in every reachable store no tier holds more than its capacity |
| TieredModel.FitsWithinCapacity | cache_server/src/tiered_store.cpp:54-64 | a new block fits HBM or DRAM if and only if the tier exists and stays within that capacity |
| TieredStore.TieredStore.constructor | cache_server/src/tiered_store.cpp:28-50 | a new store holds exactly what the SSD file held, and is valid unless the file has an id twice |
| TieredStore.TieredStore.Find | cache_server/src/tiered_store.cpp:75-101 | the copy of the fastest tier whose copy is not empty, else the last one seen |
| TieredStore.TieredStore.PutToTier | cache_server/src/tiered_store.cpp:54-64 | accepts if and only if the tier exists and has the block or room for it; adds exactly that block there |
| TieredStore.TieredStore.EraseFromTier | cache_server/src/tiered_store.cpp:66-73 | removes exactly that copy and returns its size |
| TieredStore.TieredStore.Get | cache_server/src/tiered_store.cpp:75-158 | the object's state and answer are those of the value model, promotion and access bookkeeping included |
| TieredStore.TieredStore.Promote | cache_server/src/tiered_store.cpp:117-151 | moves a hot block one tier up if and only if that tier exists and takes it |
| TieredStore.TieredStore.Put | cache_server/src/tiered_store.cpp:160-179 | the fallthrough loop lands the block in the first tier from the hint down that takes it |
| TieredStore.TieredStore.Demote | cache_server/src/tiered_store.cpp:181-224 | the object's state and answer are those of the value model |
| TieredStore.TieredStore.Erase | cache_server/src/tiered_store.cpp:226-240 | the object's state and freed bytes are those of the value model |
| TieredStore.TieredStore.UsedBytes | cache_server/src/tiered_store.cpp:242-249 | the counter equals the total size of the blocks in the tier |
| TieredStore.TieredStore.CapacityBytes | cache_server/src/tiered_store.cpp:251-258 | zero for a tier that does not exist; slots times payload size for the SSD |
| TieredStore.TieredStore.Snapshot | cache_server/src/tiered_store.cpp:260-277 | lists every block of the tier once, with its size and visited bit |
| TieredStore.TieredStore.MarkVisited | cache_server/src/tiered_store.cpp:279-282 | sets that visited bit and nothing else |
| TieredStore.TieredStore.ClearVisited | cache_server/src/tiered_store.cpp:284-287 | clears that visited bit and nothing else |
| EvictionPass.SecondChanceIff | cache_server/src/eviction.cpp:243-284 | for any two blocks, any hand and any copies elsewhere: the visited one is never out of the tier before the unvisited one, if and only if it is not a DRAM pass that meets the visited one first while HBM has the unvisited one and not the visited one |
| EvictionPass.FinishIsIter | cache_server/src/eviction.cpp:241-285 | the pass ends after the first number of steps that frees enough, or after two rounds over the snapshot |
| EvictionOutcome.ReachesLowWatermark | cache_server/src/eviction.cpp:214-285 | with each id of the tier in that tier only and no slower tier taking a victim (always so for SSD), a pass ends within 2N steps at or below low, above low before its last removal, and its count of freed bytes is true |
| EvictionRounds.StepLaw | cache_server/src/eviction.cpp:243-284 | what any step of a pass counts, takes from the tier and takes from the store, wherever else the block has copies: an HBM or DRAM pass counts a block once if it is anywhere, an SSD pass once per copy; the tier loses it unless a DRAM pass takes its HBM copy; the store loses it unless a slower tier takes it; other blocks stay where they are |
| EvictionRounds.EvictedInOrder | cache_server/src/eviction.cpp:241-297 | what a pass evicts is, in hand order, every block met that is not spared: the unvisited ones in the first round, all in the second; and where it leaves the hand |
| EvictionRounds.FirstRound | cache_server/src/eviction.cpp:241-285 | the counting law of round one: after k steps the count is the weight of the unvisited blocks met, and what has left the tier is those of them that are not in HBM too in a DRAM pass |
| EvictionRounds.SecondRound | cache_server/src/eviction.cpp:241-285 | the counting law of round two: every block met that the store still has is counted, those demoted in round one again, but the tier loses only the spared ones and those whose HBM copy went before, not both |
| EvictionOutcome.MeetsLowIff | cache_server/src/eviction.cpp:214-285 | for every tier, snapshot, hand and copies elsewhere: the step a pass ends with, that it always counts enough, the bytes left in the tier, and that these are at or below low if and only if what leaves the tier by that step comes to the need |
| EvictionOutcome.MeetsLowInOneRoundIff | cache_server/src/eviction.cpp:214-285 | if the visited bytes do not exceed low the pass ends in round one, with the first block in hand order whose counted unvisited bytes come to the need, at or below low if and only if the unvisited blocks met, less in a DRAM pass those in HBM too, come to it; always so if no unvisited block of the tier has a faster copy |
| EvictionLosses.MeetsLowWhenAcceptedIff | cache_server/src/eviction.cpp:214-285 | an HBM or DRAM pass in whose first round slower tiers took every victim, or had room for them: it ends with the first block in hand order whose sizes come to the visited bytes above low, and when it meets low; with no block of a DRAM pass in HBM too, if and only if the visited ones of these blocks come to that much |
| EvictionLosses.LosesNothingIff | cache_server/src/eviction.cpp:241-285 | for every tier, target, hand and copies elsewhere: a pass ends with the ids it began with less those it removed, in either round, when no slower tier took them, so it loses none if and only if slower tiers took every one as the hand came to it |
| EvictionLosses.LosesNothing | cache_server/src/eviction.cpp:243-284 | if the visited blocks fit under low no id is lost with room below for the victims alone, not counting what slower tiers have already |
| EvictionLosses.DramKeepsIff | cache_server/src/eviction.cpp:260-275 | a DRAM pass with room on the SSD for the whole tier keeps every id if and only if the visited bytes do not exceed low, or the first blocks in hand order whose sizes come to the excess are all visited or in HBM too; the others among them are lost |
| EvictionLosses.HbmKeepsIff | cache_server/src/eviction.cpp:260-275 | an HBM pass with room in DRAM for the whole tier keeps every id if and only if the visited bytes do not exceed low, or of the first blocks in hand order whose sizes come to the excess all are visited or the SSD has room for the unvisited ones |
| EvictionLosses.RemoveDemotes | cache_server/src/eviction.cpp:260-270 | one removal in any reachable store: what it counts, that it is a demotion when a slower tier takes the block, and that it keeps the id in the store if and only if one does |
| EvictionExamples.SecondRoundCountsTwice | cache_server/src/eviction.cpp:260-275 | a family of HBM and DRAM passes that end above low because a demoted block is counted twice |
| EvictionExamples.SecondRoundDestroys | cache_server/src/eviction.cpp:260-275 | a family of DRAM passes that destroy a demoted block although the SSD has room for everything |
| EvictionExamples.HbmSecondRoundDestroys | cache_server/src/eviction.cpp:260-275 | a family of HBM passes without an SSD that destroy a demoted block although DRAM has room for everything |
| EvictionExamples.DramPassTakesHbmCopy | cache_server/src/eviction.cpp:260-270 | a family of DRAM passes over a block that HBM has too, none visited, that end above low with nothing taken from DRAM |
| EvictionExamples.SsdPassCountsBothCopies | cache_server/src/eviction.cpp:260-270 | a family of SSD passes over a block that DRAM has too, none visited, that end above low and destroy the DRAM copy with it |
| Eviction.DefaultWatermarksLoseABlock | cache_server/src/eviction.cpp:214-217 | an instance at the default watermarks of 90 and 75 percent |
| Eviction.Evictor.RunPassForTier | cache_server/src/eviction.cpp:196-301 | nothing happens at or below the high watermark; above it, store and hand are those of the pass with the unsigned need, the number evicted is in the counter of this tier and in no other, and bytes and broadcast count are those of the pass |
| Eviction.WatermarkExact | cache_server/src/eviction.cpp:214-215 | a watermark is that percentage of the capacity, rounded down |
| Eviction.NeedsTheExcess | cache_server/src/eviction.cpp:213-233 | with low at most high, a pass that runs needs exactly the bytes above the low watermark |
| Eviction.NeedWraps | cache_server/src/eviction.cpp:231-233 | with a low watermark above the usage the need wraps around in 64 bits |
| Eviction.Evictor.Sweep | cache_server/src/eviction.cpp:241-285 | the loop is exactly the pass |
| Eviction.Evictor.RemoveBlock | cache_server/src/eviction.cpp:260-270 | demote if possible and not SSD, else erase everywhere |
| FailureDetector.DetectorExact | cache_server/src/membership.cpp:244-301 | over every timed run a seed peer is dead if and only if some tick found it overdue after a first contact and nothing was heard since; not alive implies suspected and seen |
| FailureDetector.NeverFalselyDead | cache_server/src/membership.cpp:275-301 | a peer never contacted, or contacted in time for every tick, is alive |
| FailureDetector.SilenceIsDetected | cache_server/src/membership.cpp:275-301 | the first tick past dead_after declares a contacted, silent peer dead |
| FailureDetector.SuspectedExactly | cache_server/src/membership.cpp:275-301 | right after a tick an alive peer is suspected if and only if its last contact is longer ago than suspect_after |
| FailureDetector.SuspectedIff | cache_server/src/membership.cpp:244-301 | over every run a seed peer is suspected if and only if it is dead, or the latest tick found its last contact longer ago than suspect_after and nothing was heard since; never right after a contact or a revival |
| FailureDetector.SeenEpochExact | cache_server/src/membership.cpp:251-256 | the epoch recorded for a seed peer is the one in force when its last contact came in |
| FailureDetector.UnseenEpoch | cache_server/src/membership.cpp:101-126 | and 0 before the first contact |
| FailureDetector.ReportedOncePerSilence | cache_server/src/membership.cpp:275-301 | between two reports of the same peer it was heard from |
| FailureDetector.DeadWasReported | cache_server/src/membership.cpp:155-173 | every dead peer was reported lost by a tick since which it is silent |
| FailureDetector.StepAgrees | cache_server/src/membership.cpp:244-392 | after a step the ring is this node plus the alive peers if and only if the step was not a heartbeat from a stranger; the epoch goes up by one exactly when that set changed |
| FailureDetector.RunAgrees | cache_server/src/membership.cpp:244-392 | over whole runs with heartbeats from seed peers, ring and alive peers agree and the epoch counts the changes |
| FailureDetector.AgreesThroughoutIff | cache_server/src/membership.cpp:349-392 | they agree after every step if and only if no heartbeat came from outside the seed list |
| Membership.Membership.constructor | cache_server/src/membership.cpp:101-126 | every seed starts alive, unsuspected and unseen, at epoch 0 |
| Membership.Membership.EvaluateSuspicions | cache_server/src/membership.cpp:275-301 | the loop judges exactly the other peers by the thresholds and returns exactly the newly dead |
| Membership.Membership.OnMembershipChange | cache_server/src/membership.cpp:303-343 | the epoch goes up by one, the ring becomes this node and the alive peers, and with lost peers a re-replication round over exactly the held in-route blocks starts on the new ring |
| Membership.Membership.Tick | cache_server/src/membership.cpp:155-173 | one turn of the loop is the tick of the machine; a membership change, and a re-replication round, exactly when someone died |
| Membership.Membership.OnReplies | cache_server/src/membership.cpp:244-268 | replies are the replies step of the machine: known peers are refreshed and no longer suspected, dead ones revived, and the ring changes exactly then, without a round |
| Membership.Membership.OnHeartbeat | cache_server/src/membership.cpp:349-392 | an incoming heartbeat is the heartbeat step of the machine; the reply has the epoch from before it and one line per alive peer with its recorded epoch and suspicion |
| ReReplication.QueueBound | cache_server/src/replication.cpp:290-298 | in every interleaving of inserts, drains and workers the queue never exceeds 1024 + max(1, R) |
| ReReplication.QueueBoundAttained | cache_server/src/replication.cpp:464-484 | for every route with k other members some run reaches 1024 + k: the check and the push are separate critical sections |
| ReReplication.PushesAre | cache_server/src/replication.cpp:444-453 | a sweep pushes to the whole route and an insert to the route after its first member, in route order and each once, with this node cut out: no node pushes to itself |
| ReReplication.EnqueueTakes | cache_server/src/replication.cpp:290-298 | an insert's pushes are taken in order until the queue holds 1024, and dropped from then on |
| ReReplication.FirstInFirstOut | cache_server/src/replication.cpp:157-171 | in every interleaving the queue is all that was ever queued, in order, less as many from the front as workers took |
| ReReplication.NeverSkips | cache_server/src/replication.cpp:385-497 | in every interleaving, when an unreplaced round goes inactive each candidate was pushed to every other member of the route read for it, or was absent when reached, or had no other member |
| ReReplication.DrainIsRun | cache_server/src/replication.cpp:428-511 | an undisturbed drain is a run of the machine |
| ReReplication.RoundEnds | cache_server/src/replication.cpp:423-497 | with an empty queue at each tick, N candidates left and at most w targets each, the round is over after ceil(N / per-drain(w)) drains, the inline one included |
| ReReplication.TargetsBound | cache_server/src/replication.cpp:444-453 | a route has at most max(1, R) targets, and one fewer when it contains this node |
| ReReplication.DefaultBatch | cache_server/src/replication.cpp:47-57 | for R up to 4 a drain with an empty queue serves a full batch of 256 |
| ReReplication.BatchBound | cache_server/src/replication.cpp:438-440 | no drain dispatches more than 256 blocks |
| ReReplication.RoundEndsIff | cache_server/src/replication.cpp:459-497 | with an empty queue at each tick, a round ends if and only if no candidate left has more than 1024 targets |
| Replicator.Replicator.Members | cache_server/src/replication.cpp:272-284 | the router's answer as one list is the ring-free route |
| Replicator.Replicator.ReplicateOut | cache_server/src/replication.cpp:272-300 | queues one push per replica other than this node, in order, dropping those that find the queue full; never one to this node |
| Replicator.Replicator.Serve | cache_server/src/replication.cpp:441-486 | one candidate: skipped without targets, stopped on a full queue, skipped when absent, otherwise pushed to every target |
| Replicator.Replicator.DrainReReplication | cache_server/src/replication.cpp:428-511 | the loop is exactly the drain of the machine |
| Replicator.Replicator.Candidates | cache_server/src/replication.cpp:385-401 | exactly the held blocks whose route contains this node |
| Replicator.Replicator.TriggerReReplication | cache_server/src/replication.cpp:357-426 | without lost peers nothing; otherwise a new round over exactly the candidates, and one drain of it |
| Replicator.Submit | cache_server/src/replication.cpp:290-298 | pushes one at a time under the bound of 1024 |
| Replicator.PushAll | cache_server/src/replication.cpp:478-484 | pushes to all targets in one critical section, without looking at the bound again |
| Cluster.SpreadingRun | cache_server/src/replication.cpp:357-511 | whatever the other nodes do and whatever is promoted or demoted, a held in-route block stays held, and every other route member has it, is queued for it, is being sent it, or is still ahead of the sweep |
| Cluster.Reconverges | cache_server/src/replication.cpp:357-511 | for any deaths: if a surviving member of the old route holds the block when it installs the reduced ring, then once its round and queue are empty and its workers have nothing in hand every member of the new route holds it |
| Cluster.NeverToSelf | cache_server/src/replication.cpp:281-284 | along every run no push of a node, queued or being sent, is addressed to that node, if none was at first |
| Cluster.InternalStep | cache_server/src/cache.cpp:285-311 | the insert and replicate bounce: every step the cluster takes on its own, promotions by the sweep included, leaves strictly less work, counting missing node-block-tier copies, candidates, queued pushes and pushes being sent |
| Cluster.InternalRunBound | cache_server/src/cache.cpp:285-311 | so a run without clients and membership changes is no longer than the work it starts with |
| Cluster.RoomyForMembers | cache_server/src/replication.cpp:444-467 | no candidate outgrows the queue for R up to 1024, or for R of 1025 when every candidate's route contains the node |
| Cluster.TakeIsWorkers | cache_server/src/replication.cpp:157-171 | a worker's take in the cluster is that of the replicator machine, and what leaves the queue is what is being sent |
| Cluster.InstallIsTrigger | cache_server/src/membership.cpp:303-343 | installing a reduced ring in the cluster is the machine's ring change and trigger, a rejoin the ring change alone |
| Cluster.StuckIsQuiescent | cache_server/src/replication.cpp:428-511 | a cluster with no step left has no round left and no push queued or being sent, if no candidate outgrows the queue |
| Cluster.RunsToQuiescence | cache_server/src/replication.cpp:428-511 | from every state in which no candidate outgrows the queue the nodes' own steps can be run to one with nothing left to do |
| Cluster.ClusterRecovers | cache_server/src/membership.cpp:303-338 | the whole theorem: once only the survivors' own steps are left their number is bounded, and when none is left every block a surviving route member held is held by its whole new route |
| Cache.LookupAnswers | cache_server/src/cache.cpp:183-245 | every answer of a batch is true of what the node could read when the batch arrived, although lookups promote blocks on the way; no lookup changes what is held or readable |
| Cache.HitNamesFastest | cache_server/src/cache.cpp:199-206 | a local hit names the fastest tier that has the block when its turn comes, after the promotions of the ids before it; for an empty block the slowest |
| Cache.HitsCount | cache_server/src/cache.cpp:199-243 | the hits of a batch are the ids readable on arrival and those whose primary is another node, each occurrence counted |
| Cache.RemoteHitsAreAlive | cache_server/src/cache.cpp:206-239 | after every membership run from seed peers a remote hit names an alive peer other than this node |
| Cache.AcceptedIff | cache_server/src/cache.cpp:285-311 | an insert counts if and only if it adds a nonempty copy to the tier it lands in |
| Cache.InsertIsPuts | cache_server/src/cache.cpp:285-314 | a batch leaves the store as a Put of each block in order does; the count is, modulo 2^32, the blocks that add a nonempty copy to the tier they land in, each put into the store the blocks before it left; those blocks and no others are pushed, in order, as far as the queue takes them |
| Cache.InsertHolds | cache_server/src/cache.cpp:285-314 | so after a batch the store holds the ids a plain set would hold |
| Cache.InsertPushes | cache_server/src/replication.cpp:272-300 | with room in the queue an accepted insert appends a push to each member of the route after the first, in route order and once, and none to this node |
| Cache.RepeatedInsertIsIdempotent | cache_server/src/cache.cpp:285-311 | inserting the same block again right away changes nothing, queues nothing and counts as zero |
| Cache.PresentBlockAcceptedAgain | cache_server/src/cache.cpp:278-284 | a block held in DRAM and inserted with an HBM hint is counted and replicated again |
| Cache.InsertReachesRouteIff | cache_server/src/replication.cpp:272-300 | with room in the queue, an accepted insert is pushed to every other member of the route if and only if this node is the primary or there is no route |
| Cache.InsertIsLand | cache_server/src/cache.cpp:285-311 | what Insert does to store and queue is the landing step of the cluster model |
| Cache.GetIsMove | cache_server/src/tiered_store.cpp:117-151 | what Get does to the copies of a node is nothing, or one move of the cluster model, exactly when it promotes |
| Cache.DemoteIsMove | cache_server/src/tiered_store.cpp:181-224 | what Demote does to the copies of a node is nothing, or one move of the cluster model |
| Cache.WithSelf | cache_server/src/cache.cpp:62-69 | this node once and first, then the seeds in order with those naming this node dropped |
| Cache.Cache.constructor | cache_server/src/cache.cpp:42-70 | the initial ring is the one the failure detector starts from, and the store holds what the SSD file held |
| Cache.Cache.LookupOne | cache_server/src/cache.cpp:191-244 | local store first, then a remote hit naming a primary other than this node, else a miss |
| Cache.Cache.Lookup | cache_server/src/cache.cpp:183-245 | the loop classifies every id in order against the moving store and counts hits and misses |
| Cache.Cache.InsertBlock | cache_server/src/cache.cpp:285-311 | stores by the tier hint and replicates exactly when the bytes over all tiers have grown |
| Cache.Cache.Insert | cache_server/src/cache.cpp:269-314 | the loop over the blocks, whose store, queue and 32-bit count are those of the batch |
| SendRing.WrIdInjective | cache_server/src/ibverbs_transport.cpp:543-549 | below 2^48 sends a request id determines its counter and its buffer, and its low 16 bits give the buffer back |
| SendRing.WrIdPeriod | cache_server/src/ibverbs_transport.cpp:543-549 | request ids repeat with period 2^48, so the limit is exact |
| SendRing.StepKeeps | cache_server/src/ibverbs_transport.cpp:282-307 | every step of a sender, a failed post or a completion keeps the ring invariant |
| SendRing.RunSafe | cache_server/src/ibverbs_transport.cpp:535-588 | in every interleaving with fewer than 2^48 sends, however many completions, free and pending buffers partition the ring, request ids are unique, and every promise is pending once or resolved once |
| SendRing.PromisesAreHonest | cache_server/src/ibverbs_transport.cpp:282-307 | in every run a promise says sent only if the hardware took a request made for that very promise and completed it well |
| SendRing.CompletionsAreTold | cache_server/src/ibverbs_transport.cpp:282-307 | and whatever the hardware says of a pending request is what its promise says from then on |
| Rdma.HeaderFields | cache_server/src/ibverbs_transport.cpp:70-83 | magic, kind, purpose, length, hash, layer, head group and model lie at bytes 0, 4, 8, 12, 16, 48, 52 and 56 of the header |
| Rdma.FrameArrives | cache_server/src/ibverbs_transport.cpp:309-328 | a framed block, followed by anything stale in the buffer, is received as that very block, however much of the rest counts as received |
| Rdma.AcceptedIsFrame | cache_server/src/ibverbs_transport.cpp:309-328 | a message that is accepted begins with the frame of the block it yields |
| Types.Le32RoundTrip | cache_server/src/ibverbs_transport.cpp:70-83 | four little-endian bytes and a 32-bit value determine each other, in both directions |
| Types.RingTargetExact | cache_server/src/routing.cpp:54-62 | the ring position of a hash is its first eight bytes, least significant first, and two hashes share it if and only if they agree in those |
| Routing.OnlyTheHashRoutes | cache_server/src/routing.cpp:54-62 | blocks share a ring position if and only if the first eight bytes of their hashes agree; layer, head group and model take no part |
| Rdma.Conn.constructor | cache_server/src/ibverbs_transport.cpp:254-260 | a new connection has every buffer free and nothing pending |
| Rdma.Conn.TryAcquire | cache_server/src/ibverbs_transport.cpp:541-550 | takes a buffer if one is free, under a request id never issued before that names that buffer |
| Rdma.Conn.PostFailed | cache_server/src/ibverbs_transport.cpp:578-588 | a refused request gives its buffer back and resolves its promise |
| Rdma.Conn.OnCompletion | cache_server/src/ibverbs_transport.cpp:282-307 | a completion resolves the pending promise and frees the buffer its id names; an unknown id is ignored |
| PrefixChain.PackInjective | client/lethe_client/routing.py:34-39 | packing tokens is injective |
| PrefixChain.HashedBytes | client/lethe_client/routing.py:34-54 | what is hashed for a block is the 32 bytes of the hash before it, all zero at first, and then its tokens, four bytes each, least significant first |
| PrefixChain.SameHashIffSamePrefix | client/lethe_client/routing.py:42-54 | from any initial hash and with no collision on the inputs involved, the hashes of block n of two prompts are equal if and only if the prompts agree on every token up to the end of that block |
| PrefixChain.PrefixBlockIds | client/lethe_client/routing.py:42-54 | the loop yields the chain of all blocks, a short last one included, and no more |
| Connector.HitBlocks | client/lethe_client/vllm_hook.py:843-852 | the number counted is the longest run of hits from the first block: all of it hits, and the next block is not |
| Connector.OneLongestRun | client/lethe_client/vllm_hook.py:843-852 | that number is unique |
| Connector.LeavesATokenToCompute | client/lethe_client/vllm_hook.py:854-895 | computed and newly matched tokens together are always fewer than the prompt's |
| Connector.NewTokensExact | client/lethe_client/vllm_hook.py:829-895 | an unreachable cache supplies nothing; otherwise it is the tokens of the longest run of hits, less its last block when that is the whole prompt, beyond the computed ones |
| Connector.RecordExact | client/lethe_client/vllm_hook.py:897-935 | a load is recorded if and only if at least one block of tokens and a slot are there, for as many blocks as the tokens fill and have slots, with just those slots; other requests' loads stay |
| Connector.BuildLoadsWhatWaits | client/lethe_client/vllm_hook.py:948-1011 | over a whole step with distinct request ids, the blocks planned for each request not skipped: those waiting, up to its whole blocks with slots, are loads marked as hits, and the rest are stores, each block of the chain with the slot of its index |
| Connector.LoadsOnlyHits | client/lethe_client/vllm_hook.py:922-1011 | from count through allocation to the step's plan, every block a request with nothing waiting from before loads was reported by the cache, and goes to the slot of its own index |
| Connector.PlanIsChain | client/lethe_client/vllm_hook.py:970-1001 | loads followed by stores are the hash chain of the whole blocks, each with the slot of its index, and stores start only after all recorded loads |
| Connector.LoadsWhatWasPromisedIff | client/lethe_client/vllm_hook.py:770-1011 | from count through allocation to the step's plan, whatever else waits or is scheduled: the blocks loaded are those promised if and only if none was computed and each promised one has a slot, or none was promised and none waits from before |
| Connector.PromisedBlockIsStored | client/lethe_client/vllm_hook.py:970-1001 | a prompt with one block computed where the promised block is stored and another one loaded |
| Connector.BuildPlansEachBlockOnce | client/lethe_client/vllm_hook.py:937-1015 | over a whole scheduler step, loads and stores together are, as a multiset of request, hash and slot, exactly the whole blocks of every request |
| Connector.BuildConsumes | client/lethe_client/vllm_hook.py:937-1015 | exactly the waiting loads of the planned requests are consumed |
| Connector.SecondBuildLoadsNothing | client/lethe_client/vllm_hook.py:941-951 | a second call on the same requests plans no load |
| Connector.Connector.constructor | client/lethe_client/vllm_hook.py:290 | a new connector has no load waiting |
| Connector.Connector.BlockHashes | client/lethe_client/vllm_hook.py:801-807 | the running hash of each whole block is the chain at that block |
| Connector.Connector.GetNumNewMatchedTokens | client/lethe_client/vllm_hook.py:770-895 | the token count follows from the longest hit run, with the last block held back and a lookup failure counted as no hit |
| Connector.Connector.UpdateStateAfterAlloc | client/lethe_client/vllm_hook.py:897-935 | a load is recorded exactly when tokens, slots and at least one whole block are there, bounded by the slots |
| Connector.Connector.SplitRequest | client/lethe_client/vllm_hook.py:970-1001 | the loads followed by the stores are the chain of whole blocks with their slots |
| Connector.Connector.BuildConnectorMeta | client/lethe_client/vllm_hook.py:937-1015 | the loop over the scheduled requests builds exactly that metadata and keeps exactly the other waiting loads |

## Left out

- The gRPC service, stubs, channels and retries: a send is a message that is delivered or lost.
- rdma_cm handshakes, queue pairs, memory registration and shutdown; the wait for a free buffer is one attempt here.
- BLAKE3 itself, and mapping, opening or resizing the SSD file.
- `FetchFromAny`, the eviction broadcast and the peer-evicted sets: hints that nothing reads.
- Metrics, logging and counters.
- Worker-side tensor code of the connector, futures and KV injection.
- `EpochWatcher`, and `IsLocalPrimary` and `IsLocalReplica`: one comparison each around what is modelled.
- Chaos, benchmark and deployment scripts.
- Whether a remote hit's node has the block: the server does not check.
- Interleavings inside one membership handler, one tiered-store operation or one eviction pass: each is one step here. The replicator's and the send ring's interleavings are modelled.
- In-place update of DRAM and HBM payloads and the lifetime of lent spans: blocks are values.
- Watermark: no 64-bit wrap-around in capacity times percent, which needs capacities of exabytes.
- Files with an id in two live slots open, as in the code, but nothing is promised of the store then; the program never writes one (`HistoryAtomic`).
- Cluster.Reconverges: says nothing of blocks that no surviving route member holds, or that are evicted meanwhile.
- ReReplication.NeverSkips: speaks of the route read for the candidate; the ring may change between that and the push, as in the code.
