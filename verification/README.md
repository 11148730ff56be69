# A model of ZRay

ZRay measures the memory traffic of marked regions of a program. It places as few counters as it can
in the control-flow graph, runs them through a runtime that tracks nested regions, and recovers each
region's traffic afterwards by multiplying counters with instruction mixes recorded at compile time.
This project models that pipeline in Dafny and proves exactly when what is recovered is what ran.

| file | content |
|---|---|
| `Cfg.dfy` | control-flow graphs; dominance and post-dominance defined by walks; control equivalence and equal counts |
| `Grouping.dfy` | `createPostDomSets`: the in-place consumption of the block pool, and what its groups are |
| `LoopTree.dfy` | the loop tree and its colouring into scale-factor sets |
| `Plan.dfy` | the counters handed out, and what it means for a step to move blocks from the pool to counters |
| `LoopPass.dfy` | the placement of one region's counters, from colouring to the leftover pass |
| `Placement.dfy` | what counters are offered, times mixes, equals what was executed, over all complete runs |
| `Gating.dfy` | counters count only while their region is open: exactly when that is still right |
| `GatedTraces.dfy` | the same through the runtime, from the events of a run to its rows of counters |
| `Bounds.dfy` | offsets in the order of the blocks, the bounds of a region and its first block |
| `Extents.dfy` | start and end events against begin and end markers; the condition on labels |
| `Unopened.dfy` | a region inside a loop and two regions with one id, whose increments are dropped; one that is measured |
| `Hoisting.dfy` | exactly when a hoisted counter is right, and what a loop's structure gives |
| `Nest.dfy` | programs that meet all hypotheses, and one whose hoist fails |
| `Runtime.dfy` | `startTimingEvent`, `endTimingEvent` and the increments as a per-thread state machine and as a class over arrays |
| `RuntimeTraces.dfy` | what whole traces mean: re-entry, nested calls |
| `RuntimeTimes.dfy` | invocation counts, elapsed time, sampling |
| `SampledTimes.dfy` | elapsed time when not every invocation is sampled |
| `Aggregate.dfy` | `read_pd_sets` and `apply_indirect_counts`, against accounting online |
| `Attribution.dfy` | exactly which traces are credited to the right region and record; nested regions; a condition on call trees |
| `CallTrees.dfy` | the same condition made exact, read off a tree of calls |
| `Clones.dfy` | cloning of called functions, the worklist, and the slots of all counters |
| `Splitting.dfy` | `splitInstrumentedBlocks` |
| `Regions.dfy` | `recordPragmaRegions` |
| `ProfileLog.dfy` | the profile records written by the pass, their checksum, and their reader |
| `HostLog.dfy` | the log of the host monitor, its reader, and what per-epoch deltas add up to |
| `Collections.dfy` | sets and sequences of any kind |

Code that changes things in place is modelled by classes and methods over fields and arrays, each
proved against a specification; the theorems are lemmas about the specifications.

## How the parts fit

Splitting leaves every reachable block wholly inside or outside each region
(`Splitting.CleanBlockIsUniform`). Region discovery then gives each region a list of distinct blocks.
`LoopPass.Instrumenter.InstrumentPragmaRegion` turns such a list into counters that partition it, and
its contract ends in `Placement.Exact` and `Gating.Exact`. The first is about the increments that the
counters are offered: for every program with that loop tree, every complete run that meets the hypotheses
below, and every instruction mix, they come to what the run executed, times the mixes. The second is about
the increments that count, those made while the region is open: they come to at most that, and to exactly
that if and only if the region is open wherever a counter with blocks is met. `GatedTraces` takes this
through the runtime, to the contents of every row. `Extents` turns it into a condition on the markers: for
a region with one begin marker, the region has to be open already on entry to the header of every loop in
front of which one of its counters is placed (`Extents.RightIffHeadersOpen`).
Cloning and slot allocation give every counter a slot that no other counter of the same row has:
`Clones.ModulePass.RunOnModule` ensures the log of records exactly, and with it `Aggregate.DistinctSlots`,
`Aggregate.RecordsFit` and `Aggregate.AllDirect`. The runtime adds each increment to the row of the active
region, and aggregation recovers from the final arrays what accounting by slot would have given, for every
trace (`Aggregate.OfflineFollowsOnline`). That this is what the increments' own sites amount to is another
matter: it is so at every moment of a run exactly when each increment goes to the one record of the active
row that its site belongs to (`Attribution.AlwaysAttributedIffStepsRight`), which is proved for call trees
that meet the condition below (`Attribution.CallTreesAggregateRight`) and fails for nested regions that
share blocks. With every invocation sampled the exact condition can be read off a tree of calls
(`CallTrees.AlwaysAttributedIffRightly`). `HostLog.Host.Play` writes the log that `HostLog.HostLogIsRight` reads back, and carries the
profiles over to epochs.

## Hypotheses

- Dominator trees answer as dominance is defined by paths (`Grouping.Trees.Faithful`).
- `Placement.LaidOut`: loops are natural, and entered only through the block made by splitting the
  entry edge. The graph is the one after those edges are split, which leaves dominance among the other
  blocks as it was.
- `Placement.TripCounts`: trip counts that the compiler analyses report are those of the run.
- `Placement.Steady`: no cycle passes a loop's header without a hoisted block or child loop, or the other way
  round, and none passes one of two grouped blocks alone. The code does not check this. It is exactly what
  is needed, over all complete runs, for each grouped block (`Placement.AnchorRightIffTied`) and each block
  hoisted with a count found at run time (`Hoisting.DynamicRightIffTied`); over all runs that have the
  constant trip count, for each block of one loop (`Hoisting.StaticRightIffTied`) and each entry of a chained
  loop (`Hoisting.EntriesPerTripIffTied`). A constant trip count of one needs less, and
  `Hoisting.OnceRightIffReturnsMeet` says what. For a product of trip counts it is proved sufficient, link by
  link. Part of it follows where the trip count is known (`Hoisting.IterationsMeet`).
- `Gating.OpenWhereCounted`: the region is open wherever the run meets a counter that has blocks. The code
  does not check this either; it is exactly what is needed. `Extents.RightIffHeadersOpen` and
  `Extents.RightIffCameInAtBegin` say what it means for the markers. It is stated with every invocation of
  the region sampled in.
- `Extents.Led`: in the order of a function's blocks every block but the entry comes after some predecessor,
  as in the order of strongly connected components that the pass asks for.
- `Attribution.Home`: while a region is the innermost one open, only its own counters and those of clones are
  incremented; and a region is entered from outside all regions, again from itself, or, if every invocation
  is sampled, from another region while it is not open. This can be read off a call tree without running
  it.
- `HostLog.Moves`: between two records of a thread id its counters change, either way, by at most 2^63.
- Time is stated for a clock that does not run backwards.

The hypotheses on placement hold together: `Nest.HypothesesCanHold` has a nest of two loops in one
scale-factor set that meets them all, and `Nest.DynamicHypothesesCanHold` a loop counted at run time beside
two blocks that share a counter.

## Where the code falls short of its documentation

- A region inside a loop whose iterations can be counted is not measured. The region's bounds are moved back
  by one block, to take in the loop's header (src/zray_pass.cc:981-986, src/zray_parse.cc:385-406), so the
  region's blocks are hoisted out of the loop; the one increment then comes before the region is opened for
  the first time, and is dropped or credited to the region that is open around it.
  `Unopened.RegionInLoopIsNotCounted` has such a program, in which a block runs twice and nothing is
  recovered, and `Unopened.ClosedHeaderCountsNothing` says that it is so for every such loop and run.
- include/zray.h:27-28 allows regions to share an id. Within one function they make one region with one
  start event, in the earliest of its blocks (src/zray_pass.cc:964-979, 1057), and what is counted in another
  stretch of code with the id is dropped: `Unopened.SecondStretchIsNotCounted`. A block is counted by way of
  every walk exactly when its region is marked open there and no other begin marker leads to it
  (`Extents.AlwaysOpenIffOnlyEntrance`).
- The comment at src/zray_pass.cc:115-117 calls the partition independent of the order of the list. The
  function does not make it so (`Grouping.OrderMatters`): the test is directional. Its groups are the classes
  of control equivalence exactly when the first listed member of each class dominates the others
  (`Grouping.CanonicalIffLeadersFirst`). The lists that region discovery makes have that property
  (`Extents.RegionListsAreCanonical`), so for them the claim holds.
- The remedy proposed at src/zray_pass.cc:107-109, to compare innermost loops, does not suffice:
  `Grouping.SameLoopIsNotEnough` has a loop with a `continue` between two blocks that pass both tests
  and run unequally often. One counter is right for a group exactly when no cycle passes one of its
  blocks without the anchor or the anchor without it (`Placement.AnchorRightIffTied`).
- src/zray_loop.cc:400-405 takes a block that post-dominates its loop's header to run once per iteration.
  Where the trip count is known, iterations that stay in the loop do meet it, but the last one may leave
  before it, if the loop is entered again: `Hoisting.EarlyExitMiscounts` has a loop with one latch and two
  exits, of which the first leads back through an outer loop. A hoisted counter is right exactly when no
  cycle passes the header without the block or the block without the header.
- When re-analysis after splitting an edge fails (src/zray_loop.cc:336-360), the blocks to be counted one
  by one are looked up in a list they have been erased from, and get no counter. Every block gets one
  exactly when every attempted hoist succeeds (`LoopPass.CoverIffHoistsSucceed`);
  `Nest.FailedHoistUndercounts` has a loop whose block runs three times and is not counted.
- A block that lies in two nested regions has a counter for each (src/zray_parse.cc:207-217 puts it in both
  lists), but all counters index the row of the innermost open region (src/zray_dyn.cc:331-337). The outer
  region's increment is credited to whatever record of the inner region has the same slot
  (`Attribution.NestedRegionsMiscount`), at every sampling period but 0. The comment at src/zray_dyn.cc:133-146
  has clones in mind, whose slots are their own in every row.
- A region that is sampled out inside an enabled one adds time from a stale start
  (`SampledTimes.StaleTimeIsAdded`), and its counts go to the same slots of its caller's row
  (`Aggregate.SampledOutCountsForCaller`). In properly nested activity its elapsed time is that of its
  sampled-in invocations exactly when no such exit comes after the stale start
  (`SampledTimes.TimeRightIffNoStaleExit`). Where exits cross, time may be missed as well
  (`SampledTimes.CrossingIsMissed`).
- Region profiles are right for all counter contents exactly when every region after the first has a
  direct record or nothing was cloned (`Aggregate.RightIffDirect`).
- The reader of the host log takes deltas of the counters but not of the bytes moved by intrinsics, which
  are cumulative: epochs sum to the final value exactly when it was zero before a thread's last record
  (`HostLog.LoadsSumIffLate`, `HostLog.EarlyLoadsCountAgain`).
- A thread id that is registered again after its thread has gone away is taken for the same thread: the reader
  stops with an error if a counter of the new thread is below the old one's (`HostLog.ReusedIdRefusedIffLess`).
- The test at src/zray_pass.cc:744 never holds, since the width has been raised to `maxIndirect` already;
  the other branch gives the right width.

## Model

| member | source | states |
|---|---|---|
| Cfg.CtrlEqIsEquivalence | src/zray_pass.cc:111-117 | On blocks that are reachable and reach an exit, the symmetric closure of the grouping test is reflexive, symmetric and transitive |
| Cfg.DomChain | src/zray_pass.cc:111-120 | Two dominators of a reachable block dominate one another one way, with dominance defined by paths alone |
| Cfg.PDomBetween | src/zray_pass.cc:111-120 | A block that lies between a block and its control-equivalent post-dominator in dominance post-dominates the first too |
| Cfg.OccursTogether | src/zray_pass.cc:111-117 | A complete run executes one of two control-equivalent blocks if and only if it executes the other |
| Cfg.StrictlyAlternate | src/zray_pass.cc:95-117 | If no cycle passes one of two control-equivalent blocks alone, they strictly alternate along every walk from the entry, the anchor first |
| Cfg.EqualTimes | src/zray_pass.cc:95-117 | Under the same condition both run equally often in every complete run |
| Cfg.SameTimesIffTied | src/zray_pass.cc:97-109 | Equal counts in all complete runs hold if and only if no cycle passes one block without the other |
| Grouping.CollectJoined | src/zray_pass.cc:118-125 | The scan collects exactly the blocks that join the anchor, in list order, and exactly their positions |
| Grouping.EraseJoined | src/zray_pass.cc:126-129 | Erasing positions from the back leaves the list without exactly the joined blocks, in order |
| Grouping.CreatePostDomSets | src/zray_pass.cc:80-136 | Terminates, empties the pool in place, and returns the groups about which the lemmas below speak |
| Grouping.GroupsPartition | src/zray_pass.cc:80-136 | Groups form a partition of the list: as multisets, no block is lost or doubled, whatever the dominator trees answer |
| Grouping.GroupsAnchored | src/zray_pass.cc:118-125 | Every group is led by a block that dominates, and is post-dominated by, each other member |
| Grouping.GroupsGreedy | src/zray_pass.cc:85-129 | No block could have joined an earlier group, and the anchors of groups stand in list order |
| Grouping.DisabledGroupsApart | src/zray_pass.cc:118-125 | With post-dominator sets switched off every block has a group of its own, in list order |
| Grouping.CanonicalIffLeadersFirst | src/zray_pass.cc:115-125 | For a list without repeats the groups are the classes of control equivalence if and only if each class's first listed member dominates the rest of it |
| Grouping.DominatorsFirstSuffices | src/zray_pass.cc:115-125 | Listing dominators first gives the classes |
| Grouping.OrderMatters | src/zray_pass.cc:115-117 | Counterexample for the function on arbitrary lists: two control-equivalent blocks are grouped in one order of the list and not in the other |
| Extents.RegionListsAreCanonical | src/zray_pass.cc:115-125 | The lists that region discovery makes are grouped into the classes of control equivalence |
| Grouping.SameLoopIsNotEnough | src/zray_pass.cc:97-109 | Counterexample: two blocks on a common cycle pass the test, are grouped, and some complete run executes them unequally often |
| LoopTree.FirstColored | src/zray_loop.cc:84-109 | The initial colours are a proper colouring: each class connected with one top, none empty, chains kept together, 0 exactly for unknown trip counts |
| LoopTree.SplitColored | src/zray_loop.cc:182-200 | Splitting a set at a loop that is not chained to its parent leaves a proper colouring with one more set |
| LoopTree.SetsBounded | src/zray_pass.cc:1012-1037 | There are never more sets than loops with a known trip count, so the loop over a growing number of sets ends |
| LoopTree.SettledColorsAreChains | src/zray_loop.cc:179-200 | In the end two loops share a set if and only if they hang on one chain of post-dominating headers with known trip counts |
| LoopTree.SetsAreChains | src/zray_loop.cc:179-200 | In the end there are exactly as many sets as chains |
| LoopPass.Claim | src/zray_loop.cc:216-226 | Finds a block in the pool if and only if it is there, and takes exactly that one out |
| LoopPass.SortBlocks | src/zray_loop.cc:214-234 | A loop's blocks found in the pool leave it for two lists, in the loop's order: exactly those that post-dominate the header, if the trip count is of use, and exactly the others; the rest of the pool keeps its order |
| LoopPass.Instrumenter.ColorLoopTree | src/zray_loop.cc:84-109 | The recursion colours the subtree in place as specified, leaves other nodes alone and counts the sets it opened |
| LoopPass.Instrumenter.FindLoopTreeSet | src/zray_loop.cc:111-130 | Returns the first node of the subtree with the given set, or none when there is none |
| LoopPass.Instrumenter.RecolorSFLoopSet | src/zray_loop.cc:153-166 | Recolours exactly the part of the class inside the subtree, although it stops at the first node outside the class |
| LoopPass.Instrumenter.InstrumentPostDomSet | src/zray_pass.cc:138-151 | Every group of the list gets one counter, at its first block; the list is emptied |
| LoopPass.Instrumenter.InstrumentSFLoopSet | src/zray_loop.cc:169-246 | Exactly the loops left in the set are given what they are to be given: a part with their blocks that post-dominate the header and the product of trip counts along the chain as scale, and an anchor for each group of their other blocks; a loop whose header does not post-dominate its parent's is split off |
| LoopPass.Instrumenter.SplitSet | src/zray_loop.cc:191-199 | The subtree's part of the set moves to a new set and the colouring stays proper |
| LoopPass.Instrumenter.PlaceDynamicLoop | src/zray_loop.cc:253-367 | The own blocks of one loop leave the pool: those that post-dominate its header for a counter advanced by the trip count, where that can be computed, the others for one anchor for each group; after a failed hoist all are lost |
| LoopPass.Instrumenter.InstrumentDynamicLoops | src/zray_loop.cc:248-376 | Exactly the loops of the subtree that are in no set are given their counters |
| LoopPass.Instrumenter.InstrumentSet | src/zray_pass.cc:1013-1037 | One turn finds the set's top (never null), places exactly the loops that end up in the set, and settles its colour without touching earlier sets |
| LoopPass.Instrumenter.InstrumentSets | src/zray_pass.cc:1012-1037 | The loop whose bound grows while it runs terminates with all sets settled, and every loop with known trip count hoisted once |
| LoopPass.Instrumenter.InstrumentPragmaRegion | src/zray_pass.cc:1001-1049 | Where every block ends. It is in a hoisted counter, in the part of loop k, if and only if it is an own block of k in the list, k's trip count is constant and the block post-dominates k's header; it is counted by the run-time trip count of k under the same condition for a count that is computed and recomputes; two blocks share an anchor if and only if they are grouped among the other blocks of one loop or of none; each set has one counter, with exactly its loops. Counters and lost blocks partition the list, a block is lost if and only if its loop's hoist fails, and when none is lost, in every run the counters recover at most what ran of the region, and all of it if and only if the region is open wherever a counter with blocks is met |
| LoopPass.AnchorsAreClasses | src/zray_loop.cc:228-237 | Among the blocks of a loop that are not hoisted, control-equivalent ones share an anchor and others do not, for all pairs, if and only if the first listed of each class dominates the rest of it |
| LoopPass.LeftAnchorsAreClasses | src/zray_pass.cc:1045-1049 | The same for the blocks that lie in no loop |
| LoopPass.CoverIffHoistsSucceed | src/zray_loop.cc:336-360 | No block is lost if and only if no attempted hoist fails to recompute its trip count |
| Placement.StaticTrips | src/zray_loop.cc:392-437 | In every walk from the entry a header runs its constant trip count times the entries into its loop |
| Placement.DynamicTrips | src/zray_codegen.cc:476-493 | Adding backedge-taken count plus one at every entry into the loop yields how often the header ran, whatever the count is at each entry |
| Placement.EntryPostDominates | src/zray_loop.cc:179-190 | If a child's header post-dominates its parent's, so does the block the counter is put in |
| Placement.ChainTimes | src/zray_loop.cc:179-190 | A header runs the product of the trip counts of its chain times the entries into the chain's outermost loop |
| Placement.BlockTimes | src/zray_loop.cc:222-226 | A block claimed for hoisting runs as often as its loop's header |
| Placement.AnchorRightIffTied | src/zray_pass.cc:95-125 | One counter at the anchor is right for a group, for all complete runs and mixes, if and only if no cycle passes the anchor or a member without the other |
| Placement.StepwiseIsExecuted | src/zray_pass.cc:154-170 | Summing mixes along a run, step by step, equals summing counts times mixes block by block |
| Gating.ContributesIffOpen | src/zray_dyn.cc:329-344 | One counter of any kind: what it counts while its region is open, times its mix, is at most what it is offered, and equal, for mixes without zeros, if and only if it has no blocks or is met only while the region is open |
| Gating.RecoversIffOpen | src/zray_pass.cc:1001-1058 | For every complete run and mix, the sum of counters, which count only while the region is open, times mixes is at most the sum of the mixes of the region's blocks executed, and equal if and only if the region is open wherever a counter with blocks is met |
| Gating.PlacedIsExact | src/zray_pass.cc:1001-1058 | The same for well-placed counters that partition the list, for every program with this loop tree, every run, every placing of the region's start and end events and every mix |
| GatedTraces.RowsAfterRun | src/zray_dyn.cc:211-344 | The start, counter and end events of a run, in the order in which they stand in each block, leave in every row of the runtime's array exactly this: the region's row has what its counters were offered while it was open, and the row active before has the rest |
| GatedTraces.RowRecoversIffOpen | src/zray_pass.cc:1053-1058 | From the start of a thread, the region's row times the recorded mixes is what the run executed of the region if and only if the region is open wherever a counter with blocks is met |
| Bounds.GetBBOffset | src/zray_parse.cc:368-383 | The offset of the end of a block is the number of instructions up to its end in the order |
| Bounds.GetPreviousBBOffset | src/zray_parse.cc:385-406 | The offset of the start of the block before; for the first two blocks of the order, that of the end of the first |
| Bounds.RegionBounds | src/zray_pass.cc:964-987 | Finds the earliest block of the list and the bounds; the lower one is one block earlier if that block has a begin marker and is not among the first two |
| Extents.EndEventsClose | src/zray_parse.cc:219-268 | Each visited block has as many end events for a region as there are end markers that close an entry of its group |
| Extents.BeginIsMarked | src/zray_pass.cc:964-979 | The block that gets the start event has a begin marker of the region's group |
| Extents.DiscoveredRegion | src/zray_pass.cc:863-979 | What region discovery and the bounds give a region: end events where its markers close it, the start event at a begin marker, and blocks where it is marked open |
| Extents.DepthIsLabel | src/zray_pass.cc:1053-1058 | With one begin marker the region is open along every walk exactly where its markers leave it open |
| Extents.RightIffHeadersOpen | src/zray_pass.cc:1029-1058 | For a region with one begin marker, the counters recover what runs, in all runs and for all mixes, if and only if the region is open on entry to the header of every loop that has had blocks hoisted and that some run enters |
| Extents.OpenIffCameInAtBegin | src/zray_pass.cc:964-979 | With several begin markers, none met while the group is open: the region is open at a step if and only if the walk last came into its extent at the block with the start event |
| Extents.AlwaysOpenIffOnlyEntrance | src/zray_pass.cc:964-979 | The region is open at a block by way of every walk if and only if its markers leave it open there and no other begin marker leads to the block without an end marker between |
| Extents.RightIffCameInAtBegin | src/zray_pass.cc:964-1058 | A run's counters recover what it executed, for all mixes, if and only if each time it meets a counter with blocks it last came into the extent at the block with the start event |
| Extents.SplitKeepsLabels | src/zray_pass.cc:1029 | Splitting an edge keeps the labels of all blocks, and the new block is as deep in every region as the block it leads to |
| Unopened.ClosedHeaderCountsNothing | src/zray_pass.cc:1029-1036 | A hoisted counter counts nothing for its region, in any run, if the region is not open on entry to the loop's header |
| Unopened.RegionInLoopIsNotCounted | src/zray_pass.cc:981-1036 | Counterexample: a region inside a loop, with a well-placed counter and all hypotheses met, whose block runs twice and of which nothing is recovered |
| Unopened.RegionInLoopReadsZero | src/zray_dyn.cc:329-344 | Through the runtime the counter of that region reads zero |
| Unopened.SecondStretchIsNotCounted | include/zray.h:25-28 | Counterexample: of two stretches of code with one id the second is not counted |
| Unopened.RegionAroundLoopIsMeasured | src/zray_pass.cc:1001-1058 | Example: for a region around a loop counted at run time the condition holds, and everything that runs is recovered in every run and for every mix |
| Hoisting.DynamicRightIffTied | src/zray_codegen.cc:476-493 | For a block that dominance and post-dominance make the pass hoist, adding the trip count at every entry gives its number of runs, in all complete runs with all counts that match, if and only if no cycle passes the header or the block alone |
| Hoisting.StaticRightIffTied | src/zray_loop.cc:392-437 | The same for a counter on the entry edge times a constant trip count of at least two, over all runs that have that count; the runs that fail are constructed |
| Hoisting.OnceRightIffReturnsMeet | src/zray_loop.cc:392-437 | With a constant trip count of one, the counter is right for the block in all runs with this count if and only if no cycle passes the block without the header and no way round through the split block passes the header without the block |
| Hoisting.EntryRightIffTied | src/zray_loop.cc:182-190 | A chained loop is entered once for each run of its parent's header, in all runs, if and only if no cycle passes one without the other |
| Hoisting.EntriesPerTripIffTied | src/zray_loop.cc:182-190 | With the parent's trip count constant and at least two, a chained loop is entered that often for each entry of the parent, in all runs with this count, if and only if no cycle passes one without the other |
| Hoisting.IterationsMeet | src/zray_loop.cc:400-405 | In a loop whose exits lie on every way round, as a known trip count requires, every iteration that stays in the loop meets each post-dominating block |
| Hoisting.TiedIffNoEarlyReturn | src/zray_loop.cc:400-405 | In such a loop, for a block of no inner cycle, the exact condition comes down to this: no way out of the loop and back to its header misses the block |
| Hoisting.EarlyExitMiscounts | src/zray_loop.cc:265-297 | Counterexample: a loop with one latch and two exits on every iteration, whose count can be computed, is left before a post-dominating block and entered again; the counter placed for it is wrong in a complete run with the right counts |
| Nest.HypothesesCanHold | src/zray_loop.cc:179-190 | A nest of two chained loops, with a complete run of it, meets all the hypotheses of the placement theorems at once, with dominance as paths define it |
| Nest.DynamicHypothesesCanHold | src/zray_loop.cc:248-376 | The same for a loop counted at run time and a group of two blocks, with well-placed counters for all blocks |
| Nest.FailedHoistUndercounts | src/zray_loop.cc:336-360 | Where re-analysis fails, five blocks of the region run and two are recovered, whatever well-placed counters the other blocks have |
| Runtime.StepKeepsInv | src/zray_dyn.cc:209-366 | Every event is defined on every reachable state, balanced or not, and keeps the invariant of the save stack |
| Runtime.EveryTraceIsSafe | src/zray_dyn.cc:100-160 | After any trace the stack is as high as there are open regions (so both guards pass), slot indices stay in bounds, and counting is off with base 0 when no region is open |
| Runtime.RunConcat | src/zray_dyn.cc:209-366 | Traces compose |
| Runtime.Thread.StartTimingEvent | src/zray_dyn.cc:209-277 | The in-place update of depth, save stack, row, flag and start time is the state machine's step, and keeps the invariant |
| Runtime.Thread.EndTimingEvent | src/zray_dyn.cc:279-328 | The same for the exit, with its unmatched, inner, sampled-out and sampled-in cases |
| Runtime.Thread.IncrementCounterArray | src/zray_dyn.cc:331-337 | Exactly one slot of the active row goes up by one, or nothing changes when disabled; never out of bounds |
| Runtime.Thread.IncrementCounterArraySF | src/zray_dyn.cc:339-344 | The same by a given amount |
| Runtime.Thread.IncrementLoadArray | src/zray_dyn.cc:346-351 | The same on the bytes loaded |
| Runtime.Thread.IncrementStoreArray | src/zray_dyn.cc:353-358 | The same on the bytes stored |
| Runtime.Thread.IncrementLoadStoreArray | src/zray_dyn.cc:360-366 | The same on both |
| RuntimeTraces.ReentryIsTransparent | src/zray_pass.cc:1063-1083 | Deleting a matched entry and exit of a region that is already open, anywhere in any trace, changes nothing in the final state |
| RuntimeTraces.RunDeeper | src/zray_dyn.cc:211-215 | A trace runs the same, up to the depth of one region, from a state one entry deeper in it |
| RuntimeTraces.NestedCallsHaveMeaning | src/zray_dyn.cc:209-366 | The events of any tree of region calls refine a recursive meaning (row of the last freshly opened sampled-in region, inherited otherwise), for every sampling period, and restore depth, live stack, base and flag |
| RuntimeTraces.OpenUntouched | src/zray_dyn.cc:286-294 | A region that is being executed keeps its timing profile whatever runs inside it |
| RuntimeTraces.NothingIsLost | src/zray_dyn.cc:329-366 | Over any trace each of the three arrays grows, in total, by exactly the amounts of the events of its kind that happen while counting is on |
| RuntimeTimes.CountsInvocations | src/zray_dyn.cc:289-307 | For every trace and period, depth is the region's own nesting and the count is that of completed outermost invocations |
| RuntimeTimes.TimeIsSpans | src/zray_dyn.cc:276-315 | With every invocation sampled in, the total is the sum of the completed outermost intervals, in any trace |
| RuntimeTimes.TimeIsElapsed | src/zray_dyn.cc:276-315 | With a clock that does not run backwards those intervals are disjoint and the total is at most the time that passed |
| RuntimeTimes.SamplesOneInPeriod | src/zray_dyn.cc:261-272 | Of a region's first n invocations exactly n/P, rounded up, are sampled in |
| RuntimeTimes.TimeOfOneInvocation | src/zray_dyn.cc:261-315 | What one invocation adds: its duration when sampled in; nothing when sampled out under a disabled caller; under an enabled one, its duration if and only if the stale start happens to be its own |
| SampledTimes.TotalIsLedger | src/zray_dyn.cc:261-315 | For every trace and period the total is the time of the sampled-in invocations, less that of those ended while counting was off, plus what sampled-out ones added from a stale start |
| SampledTimes.LedgerSigns | src/zray_dyn.cc:261-315 | With a clock that does not run backwards both corrections are at least zero, and each is zero if and only if no exit of its kind occurs |
| SampledTimes.NothingMissed | src/zray_dyn.cc:296-327 | In any tree of calls, from any reachable state, no sampled-in invocation ends while counting is off |
| SampledTimes.TimeRightIffNoStaleExit | src/zray_dyn.cc:261-315 | For every tree of calls and every period, the total is the time of the sampled-in invocations if and only if no sampled-out one ends, after the stale start, while counting is on |
| SampledTimes.StaleTimeIsAdded | src/zray_dyn.cc:261-315 | Counterexample from the start of a thread: a region called twice from an enabled one, for one unit each, is given four |
| SampledTimes.CrossingIsMissed | src/zray_dyn.cc:296-327 | Counterexample for crossing exits: a region sampled in and open for three units is given none |
| Aggregate.Aggregator.ReadPdSets | src/zray_dyn.cc:449-516 | Each region's profile is the sum over its direct records of the selected group of mix times counter plus bytes moved, with the function name and group of its last one; records of clones are set aside in order; a region's id stays 0 without a direct record |
| Aggregate.Aggregator.ApplyIndirectCounts | src/zray_dyn.cc:541-560 | Each region is given the clones' contribution once for every list entry that holds its id |
| Aggregate.Aggregator.Finalize | src/zray_dyn.cc:619-645 | Both together give every field of every region the aggregate that the lemmas below speak about, and its name, group and id |
| Aggregate.GroupIsSelected | src/zray_dyn.cc:491-494 | With a group selected, the aggregate of every region is that of the log from which the direct records of all other groups have been taken out |
| Aggregate.GroupOrNothing | src/zray_dyn.cc:491-494 | A region all of whose direct records are of other groups has nothing of its own, and one whose records are all of the group has all of it |
| Aggregate.BytesByField | src/zray_dyn.cc:495-507 | Bytes moved by intrinsics go to the load and the store field each from its own array, at the slots of the region's row, and to no other field |
| Aggregate.RightIffDirect | src/zray_dyn.cc:541-560 | For all contents of the arrays, aggregation gives each region its direct and cloned records once if and only if every region after the first has a direct record or nothing was cloned |
| Aggregate.OfflineFollowsOnline | src/zray_dyn.cc:449-560 | From any state and over any trace, what aggregation yields grows by what accounting at each enabled increment adds |
| Aggregate.OneOwner | src/zray_pass.cc:366-376 | With distinct slots, what is added at a slot is the mix of one record |
| Attribution.AttributedIffMatched | src/zray_dyn.cc:331-344 | For any trace, aggregation agrees with accounting by site for all mixes if and only if in every row each record's counter comes to what its own site added while that region was active |
| Attribution.AlwaysAttributedIffStepsRight | src/zray_dyn.cc:331-344 | It agrees after every prefix of the trace if and only if every enabled increment goes to the one record of the active row that its site belongs to |
| Attribution.NestedRegionsMiscount | src/zray_parse.cc:207-217 | For any two regions that both have a counter n, one run of one inside the other in which the outer one's counter is incremented makes aggregation wrong, at every sampling period but 0 |
| Attribution.CallTreesAggregateRight | src/zray_dyn.cc:449-560 | For every call tree in which only the innermost region's own counters and those of clones are incremented, and regions are entered as stated, the aggregated profiles are those of accounting by site |
| CallTrees.AlwaysAttributedIffRightly | src/zray_dyn.cc:211-344 | With every invocation sampled, aggregation is right all along a tree of calls, for all mixes, if and only if each increment's slot belongs, in the row of the region last opened that was not open already, to the record of its own site and to no other |
| Aggregate.SampledOutCountsForCaller | src/zray_dyn.cc:261-273 | In a region sampled out under an enabled caller, an increment goes to the same slot of the caller's row |
| Clones.ModulePass.ProcessFunctionClone | src/zray_pass.cc:324-353 | Returns the function's clone, made at most once and queued when made; existing functions keep their calls |
| Clones.ModulePass.ProcessCallInst | src/zray_pass.cc:172-322 | The call no longer targets a function that can be cloned, no other call of any function changes, and the one function that may have been cloned is the one called there before the pass |
| Clones.ModulePass.CloneRegionCalls | src/zray_pass.cc:656-673 | All calls inside regions are redirected and no others; the functions cloned are exactly the clonable ones called there, each once, in the order first met |
| Clones.ModulePass.InstrumentRegion | src/zray_pass.cc:676-681 | A region's records are appended exactly: slots 0 to n-1 of its row once each, with their mixes and the region's group and name; the maximum is kept up to date |
| Clones.ModulePass.InstrumentClone | src/zray_pass.cc:698-714 | A clone's records are appended exactly, in the slots directly above all used before, all its calls are redirected, and exactly the clonable functions that the original calls and that have no clone yet are cloned, in order |
| Clones.ModulePass.NextClone | src/zray_pass.cc:696-727 | One turn of the worklist takes the front clone off the list, done once, and raises the width by what it needed |
| Clones.ModulePass.DrainOnce | src/zray_pass.cc:695-727 | What is pending after a pass over a copy of the list was not cloned before the pass |
| Clones.ModulePass.DrainClones | src/zray_pass.cc:690-729 | The worklist terminates empty, with every clone instrumented exactly once, first in, first out, and the log grown by exactly their records, in that order |
| Clones.ModulePass.RunOnModule | src/zray_pass.cc:654-751 | Closure, both ways: a function is cloned if and only if it can be and calls lead to it, through functions that can be cloned, from a call in a region; each is instrumented once, in the order calls are followed first in, first out; no other function is added. No call in a region or clone targets a clonable original, other calls are untouched and all the same up to cloning. The log has exactly one record for each counter of a region and of a clone, with its slot, mix, group and name; slots are distinct in every row and below the width, which is the widest region plus all clones |
| Clones.ClonedIffReached | src/zray_pass.cc:324-353 | When no clone is pending, the functions cloned are exactly those that paths of calls lead to, with paths taken in the program before the pass |
| Clones.LogFacts | src/zray_pass.cc:683-751 | In a log of that form no two records that can be addressed in one row share a slot, all fit the width, and every region with a counter has a direct record |
| Splitting.SplitRefines | src/zray_parse.cc:97-126 | Splitting a block keeps every original block represented by a chain of blocks with its instructions in order and its successors |
| Splitting.WalksKept | src/zray_parse.cc:73-142 | Every path of the function is still there, with the same instructions in the same order and the same ways on |
| Splitting.WalksComeFrom | src/zray_parse.cc:73-142 | Every path of the split function from an original block runs along the chains of an original path |
| Splitting.WorkSplit | src/zray_parse.cc:73-142 | Splitting a block as it is visited leaves less work although it makes a new block, so the recursion ends |
| Splitting.Splitter.Scan | src/zray_parse.cc:78-132 | The block is split at the first position directly before a begin marker that is not first or directly after an end marker; without such a position nothing changes |
| Splitting.Splitter.Visit | src/zray_parse.cc:73-142 | Terminates; every newly visited block is clean and has only visited successors; blocks visited before are untouched |
| Splitting.Splitter.SplitInstrumentedBlocks | src/zray_parse.cc:73-142 | The result refines the original; a block that can run is cut at exactly the positions directly before a begin marker that is not first and directly after an end marker, so that every reachable block has begin markers only first and end markers only last; a block that cannot run is untouched |
| Splitting.CutsDecide | src/zray_parse.cc:79-133 | The positions determine the blocks: any two ways of cutting at all of them and nowhere else give the same blocks |
| Splitting.CleanBlockIsUniform | src/zray_parse.cc:241-253 | In a clean block a region is equally open at every instruction, and as open as region discovery takes it to be for the whole block |
| Regions.Finder.OpenMarkers | src/zray_parse.cc:149-205 | Each region on the stack is deeper by its begin markers in the block; new groups are listed once, at the end, and only groups that the block begins are |
| Regions.Finder.AddToOpen | src/zray_parse.cc:207-217 | Exactly the groups that are open get the block, once |
| Regions.Finder.CloseMarkers | src/zray_parse.cc:219-268 | End events are inserted exactly at the end markers whose group is still open there, with that group's region id, and depths drop accordingly |
| Regions.Finder.Record | src/zray_parse.cc:144-281 | Visits only blocks reachable from the given one, all of whose successors are visited too, and keeps lists and end events right |
| Regions.Finder.RecordPragmaRegions | src/zray_pass.cc:863-891 | If regions are properly placed in the control flow, exactly the reachable blocks are visited, the groups listed are exactly those with a begin marker in a reachable block, each group's list holds exactly the reachable blocks where it is open, without repeats and no block before one that has to run before it, and each end event carries the id its region is later given |
| Regions.Find | src/zray_parse.cc:164-166 | Returns the first entry with the id, or the end |
| ProfileLog.Checksum | include/zray_data.h:81-89 | The loop computes the exclusive or of the sign-extended bytes |
| ProfileLog.OneByteIsNoticed | include/zray_data.h:81-89 | Replacing one byte leaves the checksum the same if and only if it is the same byte |
| ProfileLog.OneByteChecksum | include/zray_data.h:81-89 | The checksum of one byte is that byte as a signed number |
| ProfileLog.ChecksumCombines | include/zray_data.h:81-89 | The checksum of two stretches of bytes is the exclusive or of theirs |
| ProfileLog.Write | src/zray_codegen.cc:587-598 | Appends the record in the layout that the round trip below reads back |
| ProfileLog.RecordLayout | src/zray_codegen.cc:586-598 | A record is the profile, four bytes of checksum, eight bytes of name length and the name, at these positions, numbers lowest byte first |
| ProfileLog.ReadLog | src/zray_dyn.cc:468-483 | Splits the log into its complete records, each with the verdict of its checksum |
| ProfileLog.RecordsReadBack | src/zray_dyn.cc:468-483 | Any sequence of records, with any names, is read back unchanged with all checksums matching |
| ProfileLog.DamageIsReported | src/zray_dyn.cc:472-478 | A record with one changed byte in its profile is reported, and reading goes on after it undisturbed |
| HostLog.Host.Register | src/zray_dyn.cc:1164-1197 | A thread is registered once, from the time of the first registration, and the first one fixes the array shape |
| HostLog.FirstShapeStays | src/zray_dyn.cc:1174-1178 | Over any run the shape is that of the first registration that names a region, whatever comes before and after it |
| HostLog.Host.Unregister | src/zray_dyn.cc:1206-1222 | Forgets the thread and writes nothing |
| HostLog.Host.Poll | src/zray_dyn.cc:1035-1088 | One record for each registered thread is appended in order, with the counters and bytes loaded and stored that were seen of it and the time since its previous one, after the header if it is the first ever |
| HostLog.Host.Play | src/zray_dyn.cc:944-1088 | Whatever is registered, unregistered and polled, in any order, the bytes written are those of the run, and parse back to exactly the records written |
| HostLog.LogReadsBack | src/post_process.cc:436-499 | For every run of registrations and polls, the log parses back to exactly the records written |
| HostLog.RecordsAsPolled | src/zray_dyn.cc:1035-1088 | For every run, the records read back are, one by one in the order polled, the thread, counters, bytes loaded and bytes stored that were seen |
| HostLog.LogLayout | src/zray_dyn.cc:1035-1088 | The log starts with width and number of regions; record k stands at a fixed place |
| HostLog.WordsAt | src/zray_dyn.cc:1049-1083 | A record is thread, counters, time, bytes loaded and bytes stored, in this order and at these places |
| HostLog.ReadLog | src/post_process.cc:451-511 | One epoch of wrapped differences against the thread's previous record for each record, up to the first in which a difference reads as negative; accepts the log if and only if there is none |
| HostLog.Subtract | src/post_process.cc:470-484 | Fails if and only if some 64-bit difference reads as negative, and otherwise returns all of them |
| HostLog.AcceptsGrowth | src/post_process.cc:473-484 | A record in which no counter has grown by 2^63 or more since the thread's last is accepted, even when counters have wrapped |
| HostLog.RefusedIffWentBack | src/post_process.cc:473-484 | Below 2^63 a record is refused if and only if one of its counters is less than in the thread's record before |
| HostLog.PassesIffForward | src/post_process.cc:470-484 | If a thread id's counters change by at most 2^63, a record is refused if and only if one of them has gone back, even past 64 bits |
| HostLog.ReusedIdRefusedIffLess | src/post_process.cc:462-484 | A thread id polled, unregistered, registered again and polled: the log is refused if and only if the second thread's counter is below the first one's |
| HostLog.DeltasTelescope | src/post_process.cc:462-487 | Over any interleaving of threads, each thread's deltas add up to its true final counters, even past 64 bits |
| HostLog.TimesTelescope | src/zray_dyn.cc:1072-1074 | For every run of registrations, polls and unregistrations, a thread's written times add up to the spans from each registration to its last poll |
| HostLog.EpochProfilesSum | src/post_process.cc:462-505 | Every counter-derived field of a thread's per-epoch profiles sums to that of the profile of its final counters |
| HostLog.HostLogIsRight | src/post_process.cc:436-511 | End to end, for every run, thread ids used again included: what was polled is read back record by record; the log is accepted if and only if no counter polled has gone back between two looks at one thread id; then the epochs have the threads and bytes moved that were seen, and their profiles sum to that of the final counters |
| HostLog.LoadsSumIffLate | src/post_process.cc:489-505 | Bytes loaded through intrinsics sum over a thread's epochs to their final value if and only if they were zero in all its records but the last |
| HostLog.EarlyLoadsCountAgain | src/post_process.cc:489-505 | Counterexample: bytes moved before a thread's first record are counted with every record |

## Left out

- Construction of the loop tree (`_createLoopTree`) and of each loop's own blocks (`getUniqueLoopBB`): the
  tree in preorder, with disjoint lists of own blocks, is an input. The bounds that decide which loops are
  in it are modelled (`Bounds`).
- The order of the blocks (`orderBasicBlocks`): any order in which each block comes after a predecessor.
- Events of other regions between those of one region's run: `GatedTraces` runs the events of one region, on
  a thread in any state with that region closed; regions nested in each other are the subject of
  `RuntimeTraces`, `Attribution` and `CallTrees`.
- Scalar evolution and loop information: trip counts, whether they can be computed and whether they can be
  recomputed after an edge was split are inputs.
- The order in which block splitting interleaves with placement: the graph is the one after all entry
  edges are split.
- `-loophoist=false`, `--full-scan`, `-postdomset=false` beyond the partition lemmas, and builds with
  `IGNORE_BB`: other configurations of the same steps.
- 64-bit wrap-around of counters, mixes and times outside the host log: integers are unbounded there.
  Counters and profiles are sums of products, so the equations also hold modulo 2^64.
- Counters of one thread only: other threads, mutexes, and counters read while they change.
- The region id in a clone's record, and its empty group: aggregation reads neither.
- Blocks lost in a clone after a failed hoist: their calls are not redirected, and `Clones` takes hoists to
  succeed in clone bodies.
- Calls of a region's blocks are redirected once before instrumentation in the model; meeting them again
  while recording is a step that changes nothing.
- The choice of which functions can be cloned and the names taken out of OpenMP fork calls
  (src/zray_pass.cc:172-316): a set of functions and a target for each call are inputs.
- `stripTimingEvents` and the region entry added to OpenMP microtasks as code: the trace they give rise to
  is covered by re-entry.
- The dominance warning of `recordPragmaRegions`, statistics, and the flags that say whether anything was
  inserted: messages only.
- Visited sets of blocks kept across functions: functions share no block, so each walk starts with none.
- `RegionProfileCounts`, hardware performance counters, CSV and text output, bandwidth and correction factors.
- The opcode table behind recorded mixes: a mix is one number per block and field, scaled by the loop factor.
- Logs that end inside a record: the readers here stop at the last complete record, where the program goes on
  with whatever its buffers hold.
- Logs left over from an earlier process, to which a host log would be appended: the log starts empty.
- The layout of the profile structure and host byte order: records are bytes of a fixed length, and numbers
  have their lowest byte first.
- Parsing the marker text (`isToolFlag`, `getGroupID`, `reduce`, `trim`): markers are given.
