# Placement Driver model

A model of the scheduling and timestamp core of a TiKV Placement Driver (PD) fork, with proofs.

- **Timestamps and ids** (`TsoClock`, `TsoProtocol`, `TsoTerms`, `TsoUnique`, `TsoLimits`, `TsoServer`, `IdAlloc`).
  Many servers around one etcd take every step of the leader loop, the timestamp oracle and its
  request handlers, in any order. The protocol is a state machine over actions; the server's own
  methods are classes proved against the same functions.
- **Operators as small programs** (`OperatorSteps`, `OperatorDriver`, `MatchPeer`, `MoveRegion`, `MoveRegionPlugin`,
  `Scatter`, `RegionScatterer`). Steps get an execution semantics on the placement of a region;
  the generated programs are proved safe at every prefix and right at the end.
- **The region index** (`Keys`, `RegionTree`, `RegionMap`, `StoreIndex`, `RegionsInfo`, `RangeCluster`). Tree, id map
  and store maps against one set of regions; queries against a scan of that set.
- **The key codec** (`Codec`).
- **Stateful structures** (`Lru`, `TwoQueue`, `HistoryBuffer`, `WaitingOperator`, `OperatorController`).
- **Scheduling potentials** (`BalanceLeader`, `Location`).

`dafny verify dfyconfig.toml` checks everything.

## Findings

- Timestamps are unique over all runs exactly if no clock reads a time before the Unix epoch, no save
  interval is negative, and saves that arrive late lower the saved time by no more than a margin
  (`TsoLimits.UniqueIff`). The epoch matters because milliseconds are truncated toward zero, so the two
  around it are one. Late saves matter because the guard of a save compares the same member value in
  every term: one that its caller gave up can take effect in a later term of the same server. The margin
  is the save interval up to twice the guard of a millisecond, and the guard and a nanosecond above that.
- A positive save interval is needed only for the physical time to stay strictly below the saved time.
- The order of timestamps within a term needs clocks after the epoch for the same reason (`TsoLimits.OrderedIff`).
- Scattering a region with learners is unsafe exactly if the random pick for the leader is a learner that
  stays: the program then starts by handing leadership to it (`Scatter.ScatterSafe`, `Scatter.LearnerPicked`).
  In the same way `CreateMoveRegionOperator` and `matchPeerSteps` are unsafe exactly if leadership goes to a
  store that keeps a learner.
- `selectPeerToReplace` promises that the distinct score does not decrease. That holds if one peer moves;
  for several it holds exactly if the cross terms of the moves do not outweigh their gains, since every
  guard looks at the old stores (`RegionScatterer.ScatterScore`, `Location.GuardedTotalFalls`).
- `matchPeerSteps` never reports a wrong count. For regions of one size whose allocations succeed, it
  indexes out of range exactly if they are disjoint and not empty and the leader's store is not among
  the source peers.
- `CreateMoveLeaderOperator` names the transfer twice if the old store holds the leader; the second finds
  the leader already there. The program is safe whichever store of the region is given up.
- `GetAdjacentRegions` finds the next neighbour of a region outside the index exactly if no indexed
  region starts strictly inside it; for indexed regions it always does.
- `GenRangeCluster` documents a closed range; the code takes start keys in [startKey, endKey), so an
  empty end key gives an empty cluster.
- A 2Q cache of size zero holds one entry, and one of size below two keeps any number of
  ghosts, because a limit of zero means no limit.
- `AddRegion` alone, for an id that is in the set, loses the new range from the tree if the old range
  starts inside it; `SetRegion` removes the old entry first.
- The waiting queue stays in pairs and rightly counted exactly if callers put one plain operator or a
  merge of one priority: a merge of two priorities is torn apart, and two plain operators count as one.
- The balance guard lowers the potential for every transfer exactly if the tried size is at least half
  of the region, and only then do transfers of such regions never cycle. A transfer can be undone right
  away exactly if the tried sizes of the two ways together do not cover the region. A ratio of one or more
  covers it whole.

## Modelling decisions

- Clocks, random numbers, map iteration orders, allocation results, filters, store limits and
  lost answers are parameters of the functions and methods that meet them.
- An etcd transaction takes effect between its call and its answer, or is applied and answered with an error,
  or, for saves and id windows, is given up and applied at any later time, with its guard checked then.
- Integers are unbounded: nanoseconds, logical counters, ids and sizes do not wrap around. Where a
  conversion matters it is written out: the zero time as nanoseconds wraps, integers in keys convert between signed
  and unsigned, and milliseconds truncate.
- Scores and weights are real numbers or integers where the code uses float64.
- Regions, where operators are built, have one peer per store and a voting leader.
- Case folding is a function on characters; two strings are equal under it as strings.EqualFold compares runes.

## Model

| member | source | states |
|---|---|---|
| `TsoUnique.UniqueRun` | server/tso.go:62-211 | Over every run of any number of servers (elections, lost leases, lost answers, restarts, deposed leaders still answering, saves of earlier terms still arriving, handlers stopped between load and add), no (physical ms, logical) pair is delivered to two client requests, if clocks are after the epoch and late saves lower the saved time by no more than the margin of every save interval |
| `TsoUnique.TermOrder` | server/tso.go:115-211 | With clocks after the epoch, within a term a request that starts after another one was answered gets the later timestamp, for every save interval, every late save and every interleaving of loads and adds |
| `TsoLimits.UniqueIff` | server/tso.go:62-211 | For any earliest clock and any bound on how far late saves may lower the saved time: all runs deliver unique timestamps if and only if there are no servers, or the earliest clock is not before the epoch and the bound is within the margin of every save interval |
| `TsoLimits.UniqueIffNonNegative` | server/tso.go:79-181 | With clocks after the epoch and late saves that do not lower the saved time, all runs of a configuration deliver unique timestamps if and only if no save interval is negative |
| `TsoLimits.OrderedIff` | server/tso.go:115-211 | For any earliest clock: all runs answer the requests of a term in order if and only if there are no servers or that clock is not before the epoch |
| `TsoLimits.NegativeIntervalRepeats` | server/tso.go:96-113 | A negative save interval lets two terms hand out the same timestamp, by a run that keeps to any earliest clock |
| `TsoLimits.BelowSavedIffPositive` | server/tso.go:115-181 | The published physical time is below the saved time in every reachable state if and only if every save interval is positive |
| `TsoLimits.EpochNeeded` | server/tso.go:183-211 | Whatever the save interval is and however close before the epoch clocks may be, some run repeats a timestamp, because milliseconds truncate toward zero |
| `TsoLimits.LateSaveRepeats` | server/leader.go:405-407 | Saves that arrive in a later term of the same server and lower the saved time by more than the margin let the next term repeat a timestamp, for short and long save intervals |
| `TsoTerms.TermsAdvance` | server/tso.go:115-181 | In every reachable state, for every interval, clock and late save: within a term physical time moves forward by a millisecond or more at each change and saved time strictly increases; as long as no save arrives late, etcd holds the last write of the last term |
| `TsoTerms.RunInv` | server/leader.go:215-311 | The protocol invariant (disjoint terms, leader knowledge, grants that never overlap, request order) holds in every reachable state |
| `TsoTerms.InvStep` | server/tso.go:62-211 | Every action of the protocol keeps the invariant |
| `TsoUnique.WindowStep` | server/tso.go:79-181 | Every action keeps each term inside the time window it saved, away from its end by the slack, and later terms after earlier ones but for the slack |
| `TsoUnique.ObjectsApart` | server/tso.go:183-211 | Two published objects never share a millisecond, over all terms |
| `TsoClock.MillisSeparates` | server/tso.go:115-181 | Two times a millisecond or more apart fall into different milliseconds, exactly unless both lie within a millisecond of the epoch |
| `TsoServer.Oracle.SaveTimestamp` | server/tso.go:62-77 | Writes only while the leader key holds this member; the server learns the new saved time exactly if the write is also answered |
| `TsoServer.Oracle.SyncTimestamp` | server/tso.go:79-113 | A term starts a guard interval or more after everything saved before, with its window saved first; a lost answer leaves the write and starts nothing |
| `TsoServer.Oracle.UpdateTimestamp` | server/tso.go:115-181 | The three promises of its comment: physical time only forward, saved time only forward, physical below saved for a positive interval; a lost answer changes only etcd |
| `TsoServer.GetRespTS` | server/tso.go:183-211 | The answer is the state of the last object loaded, in logical range; every attempt adds its count to the object it loaded, on top of what other handlers add, and failed attempts met exhausted objects |
| `TsoServer.FinishTSORequest` | client/client.go:502-510 | Request i of a batch gets the first logical value plus i |
| `TsoServer.ProcessTSORequests` | client/client.go:489-500 | Request i gets exactly the i-th timestamp of the granted range; a count mismatch fails all |
| `IdAlloc.IdsUnique` | server/id.go:37-94 | Over all runs of all servers, with deposed leaders using up old windows and abandoned transactions that run late, no id is returned twice and the ids of each server increase |
| `IdAlloc.ReservedGrows` | server/id.go:56-94 | What is reserved never shrinks, over any run and from any state |
| `IdAlloc.InvStep` | server/id.go:37-94 | Every action keeps windows apart and issued ids outside all windows |
| `IdAlloc.InvGranted` | server/id.go:56-94 | A committed window lies above every id and window so far, answered or not |
| `IdAllocator.Allocator.Generate` | server/id.go:56-94 | Moves the stored end one step on exactly if the member leads, nobody moved it since the read and the transaction runs; returns it exactly if that is also answered |
| `IdAllocator.Allocator.Alloc` | server/id.go:37-54 | Returns the first id of the window, or the first of a new window above everything reserved; fails exactly with an empty window that is not refilled |
| `OperatorSteps.AllowedFinishes` | server/schedule/operator.go:66-307 | A safe step is finished, in the sense of IsFinish, once it is carried out |
| `OperatorSteps.RunsConcat` | server/schedule/operator.go:428-440 | A program is safe exactly if its first part is and the rest is safe from where that ends |
| `OperatorSteps.CheckOperatorValid` | server/schedule/operator.go:922-941 | True exactly if no transfer names a store removed before it |
| `OperatorSteps.AddRuns` | server/schedule/operator.go:569-583 | Adding a peer through a learner or directly is safe on a free store, whatever else the region holds, with one voter more at the end |
| `OperatorDriver.Operator.Check` | server/schedule/operator.go:428-440 | For any region: skips finished steps only and returns the first that is not finished, or nothing exactly at the end of the program |
| `OperatorDriver.Operator.Drive` | server/schedule/operator.go:428-440 | A safe program driven through Check step by step is carried out safely and ends where the program says |
| `MatchPeer.GetIntersectionStores` | server/schedule/operator.go:835-850 | Exactly the stores of both lists |
| `MatchPeer.CollectAdds` | server/schedule/operator.go:754-781 | The add groups of the missing stores in order and the first new store, or failure exactly if an allocation fails |
| `MatchPeer.PickLeader` | server/schedule/operator.go:783-791 | The leader picked by the map iteration |
| `MatchPeer.RemoveRedundant` | server/schedule/operator.go:800-816 | The interleaved additions and removals, or the out-of-range index |
| `MatchPeer.AssembleSteps` | server/schedule/operator.go:793-833 | What is built once the store to lead is picked: an early or a late handover around the replacements, or the error |
| `MatchPeer.MatchPeerSteps` | server/schedule/operator.go:732-833 | Computes the specified program with its error cases, for every iteration order |
| `MatchPeer.MatchOutcome` | server/schedule/operator.go:732-833 | For distinct non-zero stores: never a wrong count; the index is out of range exactly if the regions are disjoint, not empty, and the leader store is not among the source stores |
| `MatchPeer.MatchSafe` | server/schedule/operator.go:732-833 | For a leader among equally many peers, learners included: every step is safe (never removes the leader, never adds onto an occupied store, never hands leadership to a learner), peers stay within n and n+1, voters never below the start, and the end is exactly the target stores with a voter leading, if and only if leadership does not move to a common store with a learner |
| `MoveRegion.AddMissing` | server/schedule/operator.go:610-627 | The add steps of the missing stores, or failure exactly if an allocation fails |
| `MoveRegion.RemoveRedundant` | server/schedule/operator.go:629-641 | The removals, with a transfer before the removal of the leader |
| `MoveRegion.CreateMoveRegionOperator` | server/schedule/operator.go:607-643 | The additions followed by the removals |
| `MoveRegion.MoveRegionSafe` | server/schedule/operator.go:607-643 | For any region and any non-empty store set: every step safe, never fewer voters than at the start or the end, and the end is exactly the set, if and only if the leader stays or hands over to a store that votes |
| `MoveRegion.MoveNowhereUnsafe` | server/schedule/operator.go:629-641 | With an empty store set the leader is removed |
| `MoveRegion.RemovePeerSteps` | server/schedule/operator.go:686-706 | A transfer to the first suitable follower before the removal of the leader, or the error |
| `MoveRegion.RemovePeerSafe` | server/schedule/operator.go:560-567 | Fails exactly if the leader has no suitable voting follower; otherwise safe, and ends without that store and with a voter leading, learners included |
| `MoveRegion.MovePeerSafe` | server/schedule/operator.go:645-654 | For a store outside the region: fails exactly if nobody can lead; otherwise safe, never fewer voters, and only that store changes, learners included |
| `MoveRegion.MoveLeaderSafe` | server/schedule/operator.go:656-666 | For every old store of the region and new store outside it: fails exactly if the old store holds the leader and the new one may not lead; otherwise safe, never fewer voters, and the region ends on the new store instead of the old one, led from there, learners included |
| `MoveRegionPlugin.FillTarget` | plugin/move_region.go:122-137 | The target after adding passing stores of the region while replicas are missing |
| `MoveRegionPlugin.Schedule` | plugin/move_region.go:95-151 | Emits for the first region that needs and can get an operator, with the target carried over skipped regions |
| `MoveRegionPlugin.ChooseTarget` | plugin/move_region.go:112-149 | The carried target keeps the rule stores and has the larger of the replica and rule counts when an operator is emitted |
| `MoveRegionPlugin.ScheduleSafe` | plugin/move_region.go:95-151 | The emitted operator is for passing stores that include every passing rule store, exactly max-replicas many if and only if no more rule stores pass; carrying it out is safe and ends there if and only if the leader stays or hands over to a voter |
| `Scatter.AlreadyThere` | server/schedule/operator.go:864-877 | True exactly if the leader stays and no target is on a new store |
| `Scatter.OtherSteps` | server/schedule/operator.go:896-915 | The swaps made at once and the deferred one |
| `Scatter.CreateScatterRegionOperator` | server/schedule/operator.go:853-920 | The program for a random leader, or nothing |
| `Scatter.ScatterSafe` | server/schedule/operator.go:853-920 | For every region and leader pick: no step removes the leader, peers stay within n+2, voters never fall below the start, and the end is exactly the target stores and voters led by the pick, if and only if the pick is no learner |
| `Scatter.LearnerPicked` | server/schedule/operator.go:853-894 | Two voters and a learner, with the learner picked: the program is one transfer to the learner |
| `Scatter.ScatterValid` | server/schedule/operator.go:922-941 | The built operator passes CheckOperatorValid |
| `RegionScatterer.SelectedStores.Put` | server/schedule/region_scatterer.go:37-45 | Tells whether the store was new, and selects it |
| `RegionScatterer.SelectedStores.Reset` | server/schedule/region_scatterer.go:47-51 | Nothing is selected |
| `RegionScatterer.Scatterer.CollectAvailableStores` | server/schedule/region_scatterer.go:165-182 | The eligible stores that are neither selected nor in the region |
| `RegionScatterer.Scatterer.SelectPeerToReplace` | server/schedule/region_scatterer.go:139-163 | A new voter on an available store that the distinct-score guard lets through; nothing exactly if there is none or no id |
| `RegionScatterer.Scatterer.Candidates` | server/schedule/region_scatterer.go:139-150 | Exactly the available stores that would not lower the distinct score on their own |
| `RegionScatterer.SelectedBefore` | server/schedule/region_scatterer.go:107-119 | A store is found selected exactly if an earlier region picked it and nothing was reset in this one |
| `RegionScatterer.PlacementsAreTargets` | server/schedule/region_scatterer.go:101-131 | Targets chosen one by one are pairwise distinct and new or unchanged |
| `RegionScatterer.Scatterer.PlacePeer` | server/schedule/region_scatterer.go:107-131 | One round: what becomes of a peer follows the rule, before and after a reset |
| `RegionScatterer.Scatterer.ChooseTargets` | server/schedule/region_scatterer.go:101-131 | A peer is replaced exactly if its store was picked before and a free, unguarded store and an id are there, resets in the middle included; all targets are distinct |
| `RegionScatterer.Scatterer.ScatterRegion` | server/schedule/region_scatterer.go:101-137 | The whole path: targets as above, none exactly if nothing would change, and a valid operator that is safe and ends on the targets if and only if the pick is no learner |
| `RegionScatterer.Scatterer.Scatter` | server/schedule/region_scatterer.go:84-99 | The three refusals, in order, and otherwise scatterRegion |
| `RegionScatterer.ScatterScore` | server/schedule/region_scatterer.go:139-148 | The distinct score of the region does not fall if and only if what pairs of moves lose is made up by what each gains alone; it never falls if at most one peer moves |
| `Location.GuardedTotal` | server/schedule/filters.go:291-319 | Several replacements that the filter lets through one by one: the total changes by their gains, none negative, and by the cross terms of their pairs |
| `Location.GuardedTotalFalls` | server/schedule/region_scatterer.go:139-148 | Two moves into one new zone pass both guards and lower the score |
| `Keys.Chain` | server/core/region_tree.go:30-40 | bytes.Compare is a total order: what a chain of three keys implies |
| `RegionTree.OverlapsMeansSharing` | server/core/region_tree.go:60-85 | Two ranges overlap exactly if they share a key |
| `RegionTree.Tree.Find` | server/core/region_tree.go:144-160 | The item that contains the key, or none exactly if no item does |
| `RegionTree.Tree.Search` | server/core/region_tree.go:117-125 | The one region that contains the key, as a scan of all regions finds it |
| `RegionTree.Tree.GetOverlaps` | server/core/region_tree.go:60-85 | Exactly what a scan of all regions finds, in key order |
| `RegionTree.Tree.Update` | server/core/region_tree.go:87-103 | The overlapping regions go, the new one comes, the order is kept |
| `RegionTree.Tree.Remove` | server/core/region_tree.go:105-115 | Only the item with that start key range and id goes |
| `RegionTree.Tree.SearchPrev` | server/core/region_tree.go:127-142 | The region that ends where the one containing the key starts |
| `RegionTree.Tree.GetAdjacent` | server/core/region_tree.go:169-187 | The last item that starts before and the first that starts after |
| `RegionTree.Tree.ScanRange` | server/core/region_tree.go:162-167 | The next items from a key on, one at least, limit at most |
| `RegionTree.PrevAdjoins` | server/core/region.go:726-738 | The previous neighbour is the region that ends at the start key, for every key |
| `RegionTree.NextAdjoins` | server/core/region.go:726-738 | The next neighbour is the region that starts at the end key, exactly if no region starts strictly inside |
| `RegionMap.TotalWithout` | server/core/region.go:393-430 | The recounted totals do not depend on the order of addition |
| `RegionMap.StoredSound` | server/core/region.go:393-407 | Putting keeps positions consistent and the totals equal to a recount |
| `RegionMap.DroppedSound` | server/core/region.go:416-430 | Swap-removal keeps positions consistent and the totals equal to a recount |
| `RegionMap.Map.Put` | server/core/region.go:393-407 | The map with the region, through the fields the code updates |
| `RegionMap.Map.Delete` | server/core/region.go:416-430 | The map without the id; the last id takes the free place |
| `RegionMap.Map.RandomRegion` | server/core/region.go:409-414 | Every pick below the length gives a region of the map |
| `RegionMap.Map.GetTotalSize` | server/core/region.go:432-437 | The recounted size |
| `StoreIndex.PutAdds` | server/core/region.go:507-522 | Putting into the map of a store, created if missing, adds the region there and nowhere else |
| `StoreIndex.DeleteDrops` | server/core/region.go:555-561 | Deleting from the map of a store, missing or not, drops the id there and nowhere else |
| `RegionsInfo.IndexVoters` | server/core/region.go:503-523 | The loop adds the region to the leader map of its leader store and the follower maps of the others |
| `RegionsInfo.IndexPeers` | server/core/region.go:525-544 | The loop adds the region to the maps of the listed stores |
| `RegionsInfo.UnindexPeers` | server/core/region.go:554-561 | The loop drops the id from all four maps of every store of the region |
| `RegionsInfo.RegionsInfo.SetRegion` | server/core/region.go:470-476 | The set becomes the reference update (overlapping regions and the old entry go), the overlaps are reported in key order, and tree, id map and store maps still agree with it |
| `RegionsInfo.RegionsInfo.AddRegion` | server/core/region.go:493-547 | The set becomes the reference update for every id; tree and maps agree with it exactly if the id is new, or its old range overlaps the new one and starts before it |
| `RegionsInfo.RegionsInfo.RemoveRegion` | server/core/region.go:549-562 | For any region value: the set loses its id, and tree and maps agree with it exactly if the value's start key lies in the old range and its peers cover the stores the region is listed on |
| `RegionsInfo.CountedDrop` | server/core/region.go:554-561 | Deleting an id from the maps of some stores leaves a store index equal to a recount exactly if these are all the stores it is listed on |
| `RegionsInfo.OneOwner` | server/core/region_tree.go:60-103 | No key is in two regions of the set |
| `RegionsInfo.RegionsInfo.SearchRegion` | server/core/region.go:564-571 | As a scan of the set: the region that contains the key |
| `RegionsInfo.RegionsInfo.SearchPrevRegion` | server/core/region.go:573-580 | As a scan of the set: the region before the one that contains the key |
| `RegionsInfo.RegionsInfo.GetOverlaps` | server/core/region.go:488-491 | As a scan of the set, in key order |
| `RegionsInfo.RegionsInfo.GetAdjacentRegions` | server/core/region.go:726-738 | As a scan of the set, for every region of the set; for others, the next one exactly if nothing starts inside |
| `RegionsInfo.RegionsInfo.ScanRange` | server/core/region.go:696-704 | The next regions from a key on, in key order |
| `RegionsInfo.RegionsInfo.GetStoreRegionCount` | server/core/region.go:641-644 | Equals a recount over the set |
| `RegionsInfo.RegionsInfo.GetStoreRegionSize` | server/core/region.go:622-625 | Equals a recount over the set |
| `RangeCluster.TakePage` | server/schedule/range_cluster.go:44-56 | One page takes the regions up to the end key and moves the scan key to the end of the last one |
| `RangeCluster.CollectPages` | server/schedule/range_cluster.go:39-57 | Paging ends, with exactly the regions whose start key is in the range |
| `RangeCluster.GenRangeCluster` | server/schedule/range_cluster.go:33-62 | The new index holds exactly the regions whose start key is in [startKey, endKey) |
| `Codec.EncodeBytes` | table/codec.go:89-110 | The loop computes the encoding |
| `Codec.DecodeBytes` | table/codec.go:142-178 | The loop computes the decoding, with its three errors |
| `Codec.RoundTrip` | table/codec.go:89-178 | Decoding an encoding followed by anything gives the data and what followed |
| `Codec.Canonical` | table/codec.go:142-178 | Whatever decodes is exactly the encoding of what it decodes to, followed by the rest |
| `Codec.PrefixFree` | table/codec.go:78-110 | No encoding is the beginning of another |
| `Codec.EncodeOrder` | table/codec.go:78-110 | Encodings compare as the data does, both ways |
| `Codec.EncodeIncreases` | table/codec.go:78-110 | A smaller key stays smaller whatever follows the two encodings |
| `Codec.IntRoundTrip` | table/codec.go:112-140 | Decoding an encoded integer gives it back with what follows |
| `Codec.IntCanonical` | table/codec.go:121-140 | Whatever decodes is the encoding of the integer it decodes to |
| `Codec.IntOrder` | table/codec.go:112-140 | Encodings compare as signed integers, both ways |
| `Codec.RowOrder` | table/codec.go:188-196 | Encoded row keys sort by table, then by row, both ways |
| `Codec.TableHoldsRows` | table/codec.go:180-196 | All rows of a table lie between its encoded split key and that of any later table |
| `Codec.TableIdBack` | table/codec.go:40-74 | TableID and MetaOrTable of an encoded key return the original table id |
| `Lru.PutSound` | pkg/cache/lru.go:46-60 | List and map stay in step, within the limit; with room nothing is lost |
| `Lru.LRU.Put` | pkg/cache/lru.go:46-60 | The new state, through the fields the code updates |
| `Lru.LRU.Get` | pkg/cache/lru.go:62-70 | The value, and the key in front |
| `Lru.LRU.Remove` | pkg/cache/lru.go:86-98 | The key is gone; tells whether it was there |
| `Lru.LRU.GetAndRemoveOldest` | pkg/cache/lru.go:107-114 | The last key, and the state without it |
| `TwoQueue.SpaceInv` | pkg/cache/two_queue.go:94-111 | ensureSpace leaves room and takes at most one live entry, none if there was room |
| `TwoQueue.PutInv` | pkg/cache/two_queue.go:63-92 | The three lists stay disjoint and within bounds, the value is live, and only a full cache without the key loses an entry, the one ensureSpace names: the inner lists never evict on their own |
| `TwoQueue.GetInv` | pkg/cache/two_queue.go:113-128 | A hit changes lists but nothing that is live |
| `TwoQueue.RemoveInv` | pkg/cache/two_queue.go:138-149 | Exactly the key goes |
| `TwoQueue.RunInv` | pkg/cache/two_queue.go:50-149 | Over every run of a cache of size one or more: disjoint lists, live entries within the size, and every hit returns the last value put and not removed since |
| `TwoQueue.LiveBoundedIff` | pkg/cache/two_queue.go:63-111 | Live entries stay within the size in every run if and only if the size is not zero |
| `TwoQueue.GhostsBoundedIff` | pkg/cache/two_queue.go:50-61 | Ghosts stay within half the size in every run if the size is at least two, and within no bound at all if it is smaller |
| `TwoQueue.TwoQueue.constructor` | pkg/cache/two_queue.go:46-61 | An empty cache with the two ratios |
| `TwoQueue.TwoQueue.EnsureSpace` | pkg/cache/two_queue.go:94-111 | The state of ensureSpace |
| `TwoQueue.TwoQueue.Put` | pkg/cache/two_queue.go:63-92 | The state after a put |
| `TwoQueue.TwoQueue.Get` | pkg/cache/two_queue.go:113-128 | The live value and the state after a get |
| `TwoQueue.TwoQueue.Remove` | pkg/cache/two_queue.go:138-149 | The state after a removal |
| `HistoryBuffer.RecordRefines` | server/region_syncer/history_buffer.go:79-94 | Recording keeps the ring equal to the newest records of the unbounded log |
| `HistoryBuffer.HistoryBuffer.constructor` | server/region_syncer/history_buffer.go:42-57 | Room for max(size, 1) records, starting at the stored index |
| `HistoryBuffer.HistoryBuffer.Record` | server/region_syncer/history_buffer.go:79-94 | The log grows by the record; the index is saved every hundred records |
| `HistoryBuffer.HistoryBuffer.RecordsFrom` | server/region_syncer/history_buffer.go:96-110 | The suffix of the log from an index on, exactly if it is among the last max(size, 1) since the reset |
| `HistoryBuffer.HistoryBuffer.Get` | server/region_syncer/history_buffer.go:127-133 | The record with an index, exactly if it is among those |
| `HistoryBuffer.HistoryBuffer.ResetWithIndex` | server/region_syncer/history_buffer.go:112-119 | An empty log that starts at the index |
| `WaitingOperator.ParseFlatten` | server/schedule/waiting_operator.go:76-107 | Taking groups off a list loses nothing |
| `WaitingOperator.ParseAppend` | server/schedule/waiting_operator.go:54-62 | A group put at the end becomes the last group: merge operators stay in adjacent pairs |
| `WaitingOperator.RandBuckets.PutOperator` | server/schedule/waiting_operator.go:54-62 | To the end of its bucket; the weight counts a bucket that was empty |
| `WaitingOperator.RandBuckets.PutGroup` | server/schedule/operator_controller.go:194-199 | The group enters its queue whole; total weight stays the sum over non-empty buckets |
| `WaitingOperator.PickBucket` | server/schedule/waiting_operator.go:81-105 | The bucket whose share of the total weight holds the random number; there always is one |
| `WaitingOperator.RandBuckets.GetOperator` | server/schedule/waiting_operator.go:76-107 | Nothing exactly if all buckets are empty; otherwise the first group of the picked bucket leaves whole |
| `OperatorController.PopLeaves` | server/schedule/waiting_operator.go:90-102 | A group that is taken leaves once and nothing else does |
| `OperatorController.CountedPop` | server/schedule/operator_controller.go:244-247 | The counter of a group that leaves is not zero, and counters stay equal to the waiting groups |
| `OperatorController.CountedPut` | server/schedule/operator_controller.go:189-200 | Counters stay equal to the waiting groups |
| `OperatorController.AddAllBeats` | server/schedule/operator_controller.go:255-281 | A running operator only gives way to one of higher priority |
| `OperatorController.Controller.UpdateCounts` | server/schedule/operator_controller.go:536-544 | The counts are a recount by kind, for every iteration order |
| `OperatorController.Controller.OperatorCount` | server/schedule/operator_controller.go:546-557 | The number of running operators that share a flag with the mask |
| `OperatorController.Controller.CheckAddOperator` | server/schedule/operator_controller.go:255-277 | True exactly if every operator fits its region and beats what runs there |
| `OperatorController.Controller.RemoveOperator` | server/schedule/operator_controller.go:352-357 | The region has no operator; the counts are a recount |
| `OperatorController.Controller.AddOne` | server/schedule/operator_controller.go:283-310 | The operator runs on its region; the counts are a recount |
| `OperatorController.Controller.AddOperator` | server/schedule/operator_controller.go:206-222 | Adds all or none, exactly if the limits and the check allow it |
| `OperatorController.Controller.TakeUntil` | server/schedule/operator_controller.go:228-249 | The loop ends; each group leaves once and whole, all refused but the one it stops at |
| `OperatorController.Controller.PromoteWaitingOperator` | server/schedule/operator_controller.go:224-253 | The first group that can run is added, all before it are cancelled; if none can, the queue is empty |
| `OperatorController.Controller.AddWaitingOperator` | server/schedule/operator_controller.go:174-204 | Admitted exactly if it can be added and its description is below the limit; waiting groups are conserved copy by copy and counters never pass the limit, also if regions change before the promotion |
| `OperatorController.KeptIffGroup` | server/schedule/operator_controller.go:189-200 | From a sound queue, putting a list keeps merges in adjacent pairs and the counters equal to the groups if and only if its first two operators are one plain operator or a merge of one priority |
| `BalanceLeader.AdjustTolerantRatio` | server/schedulers/utils.go:74-91 | The configured ratio, or the largest count times the factor, one at least |
| `BalanceLeader.TriedCovers` | server/schedulers/utils.go:60-65 | With a ratio of one or more the tried size covers the region |
| `BalanceLeader.RatioCovers` | server/schedulers/balance_leader.go:216-245 | In runs judged with a ratio of one or more every tried size covers its region, whatever the average size is |
| `BalanceLeader.FallsIffHalfCovered` | server/schedulers/utils.go:56-72 | Every transfer of a region that passes lowers the two stores' part of the potential, if and only if the tried size covers half of the region |
| `BalanceLeader.HalfCoveredFalls` | server/schedulers/utils.go:56-72 | Then the potential falls for a region that holds something and stays for an empty one |
| `BalanceLeader.CoveredFalls` | server/schedulers/utils.go:56-72 | With a ratio of one or more it falls by at least the region's own share on both stores |
| `BalanceLeader.NotReversed` | server/schedulers/utils.go:56-72 | A transfer is not undone right away if the tried sizes of the two ways together cover the region |
| `BalanceLeader.ReversedIffUncovered` | server/schedulers/utils.go:56-72 | No transfer of a region is undone right away, for any loads and weights, if and only if the two tried sizes together cover it |
| `BalanceLeader.SmallRatioCycles` | server/schedulers/utils.go:56-72 | With a ratio of 0.2 the same region goes back and forth |
| `BalanceLeader.TransferFalls` | server/schedulers/balance_leader.go:216-245 | A transfer changes the sum over all stores of size squared over weight by exactly its fall |
| `BalanceLeader.RunFalls` | server/schedulers/balance_leader.go:140-245 | If every tried size covers its region and no region is empty, each transfer lowers the potential by a fixed amount, so the potential at the start bounds the length of a run |
| `BalanceLeader.NoCycle` | server/schedulers/balance_leader.go:140-245 | No run of transfers whose tried sizes cover half of their regions comes back to where it started, empty regions included |
| `BalanceLeader.RunsEnd` | server/schedulers/balance_leader.go:140-245 | From every placement all such runs end: one bound on their length exists, empty regions included |
| `BalanceLeader.NoCycleIffHalfCovered` | server/schedulers/balance_leader.go:140-245 | Transfers of regions of one size with one tried size never cycle, over all clusters and runs, if and only if the tried size covers half of the region |
| `Location.GetLabelValue` | server/core/store.go:413-421 | The value of the first label whose key is equal under case folding |
| `Location.CompareLocation` | server/core/store.go:423-435 | The first level at which both stores have a value and the values differ under case folding, or -1 |
| `Location.DistinctScore` | server/schedule/replica.go:24-37 | The sum of the pair scores |
| `Location.PairSymmetric` | server/schedule/replica.go:24-37 | Two stores add the same to each other's score |
| `Location.TotalReplace` | server/schedule/replica.go:24-37 | Replacing one store changes the region's total by the difference of the two scores against the rest |
| `Location.BetterIffRaises` | server/checker/replica_checker.go:222-227 | A replacement passes the guard exactly if it raises the region's total |
| `Location.NewDistinctScoreFilter` | server/schedule/filters.go:291-307 | The other stores and the score to keep |
| `Location.FilteredIffLowers` | server/schedule/filters.go:291-319 | The filter refuses exactly the replacements that would lower the total |
| `Location.SelectSource` | server/schedule/selector.go:90-107 | The worst store of the region |
| `Location.SelectTarget` | server/schedule/selector.go:109-129 | The best store that passes, or none exactly if none passes |
| `Location.CheckBestReplacement` | server/checker/replica_checker.go:207-239 | Replaces the worst store by the one that raises the total most; does nothing only if disabled, the worst is refused, nothing raises it, or the allocation or the build for the best one fails |
| `Location.TotalAtMost` | server/schedule/replica.go:22-37 | The total is bounded by the number of pairs and levels |
| `Location.RunEnds` | server/checker/replica_checker.go:207-239 | Every run of better replacements has a bounded length and never comes back to where it started |

## Left out

- MoveRegion.MoveRegionSafe: an empty store set, for which MoveNowhereUnsafe shows the failure.
- MatchPeer.MatchSafe: a source with the leader outside its peers, for which MatchOutcome gives the result.
- RegionScatterer.Scatterer.ScatterRegion: two callers at once; the code lets them interleave on the selected stores.
- RegionsInfo.RegionsInfo.AddRegion: a region with an empty range, and displaced regions with pending peers outside their stores, for which RemoveRegion says exactly what goes wrong.
- RegionsInfo.RegionsInfo.SetRegion: the same; and per-store maps are values, so sharing of a map object between stores is not captured.
- OperatorController.Controller.AddWaitingOperator: operator lists other than one plain operator or a merge of one priority, for which KeptIffGroup shows that the queue breaks.
- WaitingOperator.PickBucket: rounding of float64 shares, which could leave a gap below one.
- BalanceLeader.RunFalls: regions of size zero and tried sizes between half and the whole of a region, for which RunsEnd gives a bound that the potential does not.
- BalanceLeader.FallsIffHalfCovered: operators in flight, whose influence shifts both scores.
- HistoryBuffer.HistoryBuffer.Record: a change of the stored index by others; what a restart reloads is a constructor parameter.
- etcd, B-tree, linked list, heap and token bucket internals.
- A campaign that takes effect after its server gave it up and moved on. Its put names a lease granted before any
  later lease of that server and never kept alive (server/leader.go:240), so that lease is gone once a later key of
  the server has run out; only a late campaign after a late resignation would escape this.
- Real-time order of timestamps over leader changes, which serving from a local leader check does not give.
- Merge and split steps, pending peers in step completion, operator influence, timeouts, histories and the notifier queue.
- The region score, hot-region statistics and the region balancer, which rest on float64 special cases.
- Concurrent region heartbeats and the store counters refreshed by them.
- Region storage batching, the GC safe point, split checks, operator kind names and the placement rule parser.
- gRPC, HTTP, metrics, logging, configuration, plugin loading and the command-line client.
