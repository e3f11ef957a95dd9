# gomud2, modelled and proved in Dafny

gomud2 is a multi-user dungeon whose world is kept in zones. A zone is a graph of locations, exits,
actors and objects with links both ways; it changes only by applying events, which are stored, so
that a zone can be rebuilt by replaying them or from a snapshot and the events after it. Beside the
zones there are a log of intended changes that survives crashes, and two best-first searches with
which the brains of computer-played actors plan.

The project has three parts.

**Searching** (`NeighborQueue`, `Search`, `AStar`, `Dijkstra`, `CombatPlan`). The priority queue is a
class over a list of items that know their own positions, with the sifting loops of a binary heap.
The two searches are the loops of the program, with lazy duplicates in the frontier, no closed set
and nodes that are reopened; they are proved to find a goal of least cost over all walks.

**Stores** (`Bytes`, `EventStream`, `HeaderBuffer`, `EventStore`, `IntentLog`, `IntentRecovery`,
`IntentLogger`, `UUIDList`). Files are sequences of bytes. A log cut at any byte is read, truncated
and recovered from; streams of events read back as written; retrieval is a snapshot and a tail.

**Zones** (the files whose names begin with `Zone`, `Snapshot` or `Actor`, and `Inventory`,
`EventSourcing`, `PayloadRun`, `ObjectTree`, `Corpse`, `Migration`, `Arrival`, `LocationRemoval`,
`RemovalCommand`, `RemovalRestart`, `Command`, `CommandRestart`, `CommandCrash`, `MigrationCrash`,
`World`, and the four files whose names end in `Outcome`). `ZoneView` says what a zone means without its lists, what each event does to that, and
which events a zone can take. `ZoneState` has the linked lists and every event handler as a
function, `ZoneLinks` and `ZoneApplied` prove that the two agree, and `Zone` is the class that does
it all in place. The theorems about snapshots, death and migration are proved about the view and
carried to the class by its contracts; that a restart gives the same zone is proved of the lists
themselves (`ZoneReplay`). `Command` has every command of a zone in one datatype; `CommandOutcome`,
`MoveOutcome`, `TreeOutcome` and `RemovalOutcome` say of each, in terms of the zone's own entities,
exactly when it goes through and what the zone and its log then are; `CommandRestart`
says exactly which of them a restart finds done as they were, `CommandCrash` and `MigrationCrash`
what is found when the log ends inside one, and `ZoneLife` follows a zone through any mix of
commands, snapshots and restarts.

A zone is called settled when its links agree, it is consistent and nothing in it is stranded; the
class promises of each command what it does to a settled zone, whether that was created or loaded.

Where the program checks less than a consistent zone needs, the lemmas named Exactly give the
condition, both ways: moving an actor from where it is not, moving an object where there is no room
or into itself, removing what still holds something, updating an exit to lead within the zone or to
a direction that is taken, removing a location that has an exit to itself or is the default.
`ZoneFailure` has, for each, a run of checked commands from an empty zone that ends in it. Where
the documentation and the code differ the code is followed: doc/README.md:82-84 has a migrating
actor briefly in neither zone, while the code takes it into the new zone first
(`Migrations.NeverInNeither`), and snapshottable.go:4-5 takes the dependencies for acyclic, which
only guarded moves keep so (`ZoneInvariant.MoveAcyclicExactly`).

`dafny verify dfyconfig.toml` checks everything.

## Model

| member | source | states |
|---|---|---|
| NeighborQueues.NeighborQueue.Swap | src/github.com/sayotte/gomud2/brain/internal/inner/pathfind/priorityqueue.go:25-29 | Exchanges two slots; afterwards every queued item still knows its own position, and the items and their costs are the same ones |
| NeighborQueues.NeighborQueue.Push | src/github.com/sayotte/gomud2/brain/internal/inner/pathfind/priorityqueue.go:31-36 | Appends an item and tells it its position, restoring no order |
| NeighborQueues.NeighborQueue.Pop | src/github.com/sayotte/gomud2/brain/internal/inner/pathfind/priorityqueue.go:42-49 | Takes the last slot; the item is no longer queued and its index is -1 |
| NeighborQueues.NeighborQueue.HeapPush | src/github.com/sayotte/gomud2/brain/internal/inner/pathfind/dijkstra.go:46-51 | heap.Push over this queue: heap order and positions hold again, and the contents are the old ones and the item |
| NeighborQueues.NeighborQueue.HeapPop | src/github.com/sayotte/gomud2/brain/internal/inner/pathfind/dijkstra.go:31-32 | heap.Pop over this queue: the item was in it and none was cheaper; it has left, with index -1; order and positions hold for the rest |
| NeighborQueues.NeighborQueue.Update | src/github.com/sayotte/gomud2/brain/internal/inner/pathfind/priorityqueue.go:56-60 | Changing the cost of a queued item and fixing the heap restores order, keeps the items and changes that one cost only |
| Searches.InitialPop | src/github.com/sayotte/gomud2/brain/internal/inner/pathfind/astar.go:14-35 | The first entry has priority 0 whatever the estimator says: popping it either is the answer or establishes the shared invariant |
| Searches.RelaxKeepsInv | src/github.com/sayotte/gomud2/brain/internal/inner/pathfind/astar.go:37-58 | Looking at one neighbor, with stale duplicates left in the frontier and nodes reopened, keeps the shared invariant |
| Searches.PopKeepsInv | src/github.com/sayotte/gomud2/brain/internal/inner/pathfind/astar.go:28-37 | Popping an entry, fresh or stale, and starting to expand its node keeps the shared invariant |
| Searches.WaitingOnWalk | src/github.com/sayotte/gomud2/brain/internal/inner/pathfind/astar.go:28-59 | On any walk from the start there is a node still waiting at a label no dearer than the walk so far, or the whole walk is already known no dearer and ends in no goal |
| Searches.CheapestBoundsGoals | src/github.com/sayotte/gomud2/brain/internal/inner/pathfind/astar.go:28-35 | No walk to any goal costs less than the cheapest priority in the frontier, for any admissible estimator, consistent or not |
| Searches.PoppedGoalIsBest | src/github.com/sayotte/gomud2/brain/internal/inner/pathfind/astar.go:32-35 | A goal popped as a cheapest entry carries the least cost of any walk to any goal |
| Searches.EmptyFrontierNoGoal | src/github.com/sayotte/gomud2/brain/internal/inner/pathfind/astar.go:28-61 | When the frontier is empty no goal can be reached |
| Searches.ImproveKeepsRooted | src/github.com/sayotte/gomud2/brain/internal/inner/pathfind/dijkstra.go:44-53 | Redirecting a predecessor link keeps the links a tree rooted at the start, zero-cost cycles included |
| Searches.ChainIsWalk | src/github.com/sayotte/gomud2/brain/internal/inner/intelligence/combatplan.go:82-87 | A chain of predecessor links is a walk along generated neighbors that costs no more than the label at its tip, and labels never fall along it |
| AStarSearch.ImproveShrinksBetter | src/github.com/sayotte/gomud2/brain/internal/inner/pathfind/astar.go:40-57 | Every improvement uses up one of the finitely many simple walks that still undercut a label: why reopening nodes comes to an end |
| AStarSearch.PoppedIsPromising | src/github.com/sayotte/gomud2/brain/internal/inner/pathfind/astar.go:28-31 | Cost and estimate of a node popped as cheapest are together no more than the cost of any walk to any goal: what the estimator saves |
| AStarSearch.AStarFindPath | src/github.com/sayotte/gomud2/brain/internal/inner/pathfind/astar.go:7-62 | The answer is a goal of least cost over all walks to all goals, every chain of links to it is a walk of just that cost, or no goal is reachable; the links form a tree; nothing was reached through a node whose cost and estimate together exceed the cost of any walk to a goal; the loop ends on any finite reachable graph |
| DijkstraSearch.FirstPopIsLeast | src/github.com/sayotte/gomud2/brain/internal/inner/pathfind/dijkstra.go:31-36 | A node is first popped at the least cost of any walk to it |
| DijkstraSearch.PopExtendsHistory | src/github.com/sayotte/gomud2/brain/internal/inner/pathfind/dijkstra.go:24-36 | Popped costs never decrease, and a node is final at its first pop |
| DijkstraSearch.ImprovesUnsettled | src/github.com/sayotte/gomud2/brain/internal/inner/pathfind/dijkstra.go:41-53 | Only nodes never popped are improved: a stale entry, expanded again, pushes nothing |
| DijkstraSearch.Expand | src/github.com/sayotte/gomud2/brain/internal/inner/pathfind/dijkstra.go:41-54 | The loop over neighbors relaxes each edge of the popped node; if the entry was stale nothing changes |
| DijkstraSearch.Take | src/github.com/sayotte/gomud2/brain/internal/inner/pathfind/dijkstra.go:24-36 | Each pop settles a node or is stale with the frontier one smaller: the measure by which the loop ends without a budget |
| DijkstraSearch.OutOfBudget | src/github.com/sayotte/gomud2/brain/internal/inner/pathfind/dijkstra.go:25-27 | When the budget is spent, that many different entries were popped, each an edge out of a node popped before it, none of them a goal, and every node not popped is no nearer than the last |
| DijkstraSearch.BudgetSuffices | src/github.com/sayotte/gomud2/brain/internal/inner/pathfind/dijkstra.go:25-27 | A reachable goal is found whenever the nodes no farther than it have fewer edges out of them than the budget, less one |
| DijkstraSearch.DijkstraFindPath | src/github.com/sayotte/gomud2/brain/internal/inner/pathfind/dijkstra.go:8-58 | Returns the least-cost goal, or there is none to reach, or the budget ran out before any goal came within reach; always with the history of pops: no entry twice, each offered by a node popped before it, the only goal among them the answer, costs rising, no more of them than the budget, nor pushes than one plus the edges out of the settled nodes |
| CombatPlans.PlanChain | src/github.com/sayotte/gomud2/brain/internal/inner/intelligence/combatplan.go:82-87 | The links of a found goal lead back along a walk from the starting action that is a least-cost plan |
| CombatPlans.CombatPlan.WalkBack | src/github.com/sayotte/gomud2/brain/internal/inner/intelligence/combatplan.go:82-87 | The walk back ends and lists that path from goal to start |
| CombatPlans.CombatPlan.Reverse | src/github.com/sayotte/gomud2/brain/internal/inner/intelligence/combatplan.go:93-98 | The in-place exchange loop reverses the list |
| CombatPlans.CombatPlan.Plan | src/github.com/sayotte/gomud2/brain/internal/inner/intelligence/combatplan.go:66-98 | The planned actions are, in execution order, a walk from the starting action to a goal at the least cost of any; they are empty only if no goal is reachable or all 4000 expansions went to different entries that are no goals and no dearer than any |
| CombatPlans.PlanIsFound | src/github.com/sayotte/gomud2/brain/internal/inner/intelligence/combatplan.go:66-81 | With a goal in reach neither can be, if the actions no dearer than it have fewer than 3999 edges out of them |
| CombatPlans.GivesUpAfter | src/github.com/sayotte/gomud2/brain/internal/inner/intelligence/combatplan.go:71 | Giving up takes four thousand expansions, no more and no fewer |
| Bytes.LERoundTrip | src/github.com/sayotte/gomud2/store/eventheader.go:45-48 | A number survives a little-endian field exactly as far as it fits |
| Bytes.LowBytesFirst | src/github.com/sayotte/gomud2/store/eventheader.go:45-48 | The lower byte of a field comes before the higher ones |
| EventStream.HeaderRoundTrip | src/github.com/sayotte/gomud2/store/eventheader.go:33-84 | A header reads back as written if and only if every field fits its slot |
| EventStream.EventBytes | src/github.com/sayotte/gomud2/store/eventheader.go:33-62 | Which bytes of a written event hold its ID, number, length, type, version, time and mark of compression, each at its offset, and that the body after them is deflated just when it is marked so |
| EventStream.EventRead | src/github.com/sayotte/gomud2/store/domainconverter.go:116-190 | Of any bytes at all: whether they are the end, an event or a failure, and which event, told byte by byte; a body cut short is decoded as far as it goes |
| EventStream.RoundTripExactly | src/github.com/sayotte/gomud2/store/domainconverter.go:139-190 | With a header that fits, an event comes back exactly when the type in its header is that of its body: decoding goes by the type alone |
| EventStream.EventRoundTrip | src/github.com/sayotte/gomud2/store/domainconverter.go:97-139 | A written event reads back from the front of any bytes, compressed or not, using up just its own bytes |
| EventStream.ReadAppended | src/github.com/sayotte/gomud2/store/store.go:63-79 | Whatever follows whole events in a stream is read after them |
| EventStream.StreamRoundTrip | src/github.com/sayotte/gomud2/store/store.go:63-79 | Any list of storable events with any mix of compression reads back as it was, with the end of file just at the end |
| EventStream.TornEventFails | src/github.com/sayotte/gomud2/store/domainconverter.go:116-140 | A stream cut inside an event yields the whole events and then a failure, never a clean end |
| HeaderBuffers.MarshalBinary | src/github.com/sayotte/gomud2/store/eventheader.go:33-62 | Filling the 48-byte buffer by offset gives the header format |
| HeaderBuffers.HeaderRecord.UnmarshalBinary | src/github.com/sayotte/gomud2/store/eventheader.go:64-84 | Sets every field from a buffer of exactly 48 bytes whose time is one; any other length leaves the record alone, and a bad time leaves the time and the compression flag |
| HeaderBuffers.MarshalLogHeader | src/github.com/sayotte/gomud2/store/logger.go:328-341 | Filling the zeroed 32-byte buffer gives the intent log header, padding included |
| HeaderBuffers.WriteEventTo | src/github.com/sayotte/gomud2/store/domainconverter.go:23-114 | Appends header, patched with the body length, and body; an event type without a stored form writes nothing |
| HeaderBuffers.ReadEventFrom | src/github.com/sayotte/gomud2/store/domainconverter.go:116-140 | Reads one event off a stream step by step, failing at a short header, a bad time or a bad body, and moves past just its bytes |
| IntentLog.EntryRoundTripExactly | src/github.com/sayotte/gomud2/store/logger.go:243-312 | An entry reads back as written if and only if both contents are shorter than 4 GiB |
| IntentLog.EntryBytes | src/github.com/sayotte/gomud2/store/logger.go:328-341 | Which bytes of an entry hold its ID, the lengths of redo and undo, the mark of completion and zeros, and that the redo contents come before the undo contents |
| IntentLog.EntryRead | src/github.com/sayotte/gomud2/store/logger.go:275-312 | Of any bytes at all: exactly when an entry is at their front, and which |
| IntentLog.CutEntry | src/github.com/sayotte/gomud2/store/logger.go:275-312 | An entry cut anywhere reads as end of file |
| IntentLog.WholeInsideIsMost | src/github.com/sayotte/gomud2/store/logger.go:149-169 | The entries counted as whole inside a cut are as many as fit |
| IntentLog.CrashAnywhere | src/github.com/sayotte/gomud2/store/logger.go:141-171 | A log cut at any byte parses as exactly the entries wholly inside, and is truncated to exactly their bytes |
| IntentLog.WriteAfterCrash | src/github.com/sayotte/gomud2/store/logger.go:155-164 | What is written after the truncation is read after the surviving entries |
| IntentLog.TruncatedReads | src/github.com/sayotte/gomud2/store/logger.go:141-171 | For any bytes at all, truncating loses no entry, later appends are read after them, and truncating again changes nothing |
| IntentRecovery.PendingIsOutstanding | src/github.com/sayotte/gomud2/store/logger.go:173-179 | With unique IDs, what the map and the ordered list keep is exactly the intents no later entry confirms, in write order |
| IntentRecovery.ConfirmedPrefix | src/github.com/sayotte/gomud2/store/logger.go:217-223 | Confirming the first k of them leaves exactly the others outstanding |
| IntentRecovery.CrashDuringRecovery | src/github.com/sayotte/gomud2/store/logger.go:184-224 | After a crash at any byte of the confirmations, reopening finds exactly the suffix not wholly confirmed |
| IntentRecovery.RecoverCallsInOrder | src/github.com/sayotte/gomud2/store/logger.go:184-224 | The handler is called once per confirmed intent, in order, and at most once more, for the one it failed on: each time with what the redo contents read as, and then what the undo contents read as; it stops at the first intent that has no handler, cannot be read or is failed on |
| IntentRecovery.PendingAfterCrash | src/github.com/sayotte/gomud2/store/logger.go:131-180 | Whatever intents and completions were written, and at whatever byte the log was cut: what opening it finds pending are just the entries of the intents whole in the log and not completed there, in write order |
| IntentRecovery.RedoneAsWritten | src/github.com/sayotte/gomud2/store/logger.go:52-227 | And for each of these, in that order, the handler gets just the redo and the undo events that the intent was written with; opening succeeds exactly when the handler does on all of them |
| IntentLoggers.OneMoreWritten | src/github.com/sayotte/gomud2/store/logger.go:61-108 | The bytes of such a log are those that writing intents and completions append, one after the other |
| IntentLoggers.IntentLogger.WriteEntry | src/github.com/sayotte/gomud2/store/logger.go:110-120 | Appends exactly the bytes of the entry |
| IntentLoggers.IntentLogger.WriteIntent | src/github.com/sayotte/gomud2/store/logger.go:61-91 | Appends an uncompleted entry with both event lists compressed, or, not open or not storable, nothing |
| IntentLoggers.IntentLogger.ConfirmIntentCompletion | src/github.com/sayotte/gomud2/store/logger.go:95-108 | Appends a completed entry of that ID without contents if the log is open |
| IntentLoggers.IntentLogger.Deserialize | src/github.com/sayotte/gomud2/store/logger.go:275-312 | Reading header and contents piece by piece gives the parsed entry, and every shortfall is end of file |
| IntentLoggers.IntentLogger.Scan | src/github.com/sayotte/gomud2/store/logger.go:141-180 | The reading loop ends with the file truncated after its last whole entry and with the pending intents tracked |
| IntentLoggers.IntentLogger.HandlePending | src/github.com/sayotte/gomud2/store/logger.go:182-226 | Handles and confirms the pending intents in order until one fails, and appends just those confirmations; which events each call gets is in IntentRecovery.RecoverCallsInOrder |
| IntentLoggers.IntentLogger.Open | src/github.com/sayotte/gomud2/store/logger.go:131-227 | Opening calls the handler on the pending intents in order (what they are is in RecoverCallsInOrder and RedoneAsWritten) and leaves the whole entries followed by the confirmations made; opening an open log does nothing |
| IntentLoggers.Reopen | src/github.com/sayotte/gomud2/store/logger.go:38-52 | After a recovery that confirmed k intents, reopening finds exactly the rest: none after a complete one |
| UUIDLists.IndexOf | src/github.com/sayotte/gomud2/uuid/uuid.go:27-34 | The first index of the ID, or -1 if it is not there |
| UUIDLists.RemoveId | src/github.com/sayotte/gomud2/uuid/uuid.go:36-42 | The list without the first occurrence |
| UUIDLists.RemoveInPlace | src/github.com/sayotte/gomud2/uuid/uuid.go:36-42 | The same in the slice's own array, moving the rest down |
| EventStores.EventStore.PersistEvent | src/github.com/sayotte/gomud2/store/store.go:24-46 | Appends the bytes of the event to the file, or nothing if it has no stored form |
| EventStores.EventStore.PersistSnapshot | src/github.com/sayotte/gomud2/store/store.go:138-160 | Overwrites that one snapshot file with the events, or with those before the first that cannot be written, leaving all others |
| EventStores.EventStore.FindPreviousSnapshot | src/github.com/sayotte/gomud2/store/store.go:162-200 | The newest of the zone's snapshots not past the given number, in whatever order the directory is listed |
| EventStores.EventStore.RetrieveEventsUpToSequenceNumForZone | src/github.com/sayotte/gomud2/store/store.go:88-136 | Answers the newest snapshot and then the tail of the log for the zone, a read error ending it |
| EventStores.TailIsFilter | src/github.com/sayotte/gomud2/store/store.go:114-133 | With growing numbers per zone, stopping at the first event past the end loses none that is wanted |
| EventStores.ResponsesAre | src/github.com/sayotte/gomud2/store/store.go:63-79 | Reading a file answers its events one by one, and then an error unless it ended well |
| EventStores.BrokenTail | src/github.com/sayotte/gomud2/store/store.go:114-133 | A log that breaks off answers what there is of the zone and then the error |
| Inventories.ActorInventory.AddObject | src/github.com/sayotte/gomud2/core/actorinventory.go:156-210 | Adds the item last on the list named, back, belt, body or hands, the hands also for any, just when that list has fewer items than its own limit and the sizes fit its own slots; a full list is told apart from an item too large; else nothing changes |
| Inventories.ActorInventory.RemoveObject | src/github.com/sayotte/gomud2/core/actorinventory.go:212-217 | Takes the item out of all four lists |
| Inventories.ActorInventory.CheckMoveObjectToSubcontainer | src/github.com/sayotte/gomud2/core/actorinventory.go:219-277 | Succeeds exactly when the item is on the list of the first name and the list of the second has fewer items than its own limit and room for the size in its own slots |
| Inventories.ActorInventory.MoveObjectToSubcontainer | src/github.com/sayotte/gomud2/core/actorinventory.go:279-307 | Moves without checking; an unknown destination is noticed only when the item has left its source |
| Inventories.ActorInventory.Objects | src/github.com/sayotte/gomud2/core/actorinventory.go:127-140 | The four copies into one array are the four lists one after the other |
| Inventories.PlaceForExactly | src/github.com/sayotte/gomud2/core/actorinventory.go:107-125 | An item is on a list exactly when that list is the place reported for it |
| Inventories.FitsExactly | src/github.com/sayotte/gomud2/core/actorinventory.go:187-197 | For an absent item, and for each of the four lists with its own two limits, the two checks pass exactly when adding it breaks no limit |
| Inventories.AfterAddExactly | src/github.com/sayotte/gomud2/core/actorinventory.go:156-210 | What an add comes to under each of the names there are, every list with its own limits |
| Inventories.LimitedExactly | src/github.com/sayotte/gomud2/core/actorinventory.go:14-40 | Within limits means for each of the four lists the limits of its own |
| Inventories.AddKeepsOkExactly | src/github.com/sayotte/gomud2/core/actorinventory.go:156-210 | An add that goes through keeps the lists disjoint and within limits exactly when the item was not held already |
| Inventories.RemovedKeepsOk | src/github.com/sayotte/gomud2/core/actorinventory.go:212-217 | Removing keeps every list within limits and disjoint |
| Inventories.AddThenRemove | src/github.com/sayotte/gomud2/core/actorinventory.go:199-217 | Removing what was just added gives the inventory back, lists and order |
| Inventories.MovedKeepsOk | src/github.com/sayotte/gomud2/core/actorinventory.go:257-307 | A checked move keeps limits and contents and changes the place of that one item |
| Inventories.RunKeepsOk | src/github.com/sayotte/gomud2/core/actorinventory.go:156-307 | Over any run of adds of absent items, removals and checked moves none of the four lists exceeds its own limits and no item is in two |
| Inventories.RefillSucceeds | src/github.com/sayotte/gomud2/core/actorinventory.go:156-210 | Re-adding all contents to an empty inventory under their own labels, in any order, never fails and puts each where it was |
| ZoneInvariant.EffectKeepsSound | src/github.com/sayotte/gomud2/core/zone.go:1145-1742 | Every acceptable event keeps actors, objects and exits placed, directions unique, limits kept and containment acyclic |
| ZoneInvariant.DefaultKeptExactly | src/github.com/sayotte/gomud2/core/zone.go:1402-1404 | And the default location one of the zone, exactly when it is not the one removed |
| ZoneInvariant.RunKeepsDefault | src/github.com/sayotte/gomud2/core/zone.go:1037-1048 | Over any run that never removes the location that is the default by then |
| ZoneInvariant.ApplyKeepsSound | src/github.com/sayotte/gomud2/core/zone.go:1050-1143 | So does applying it, and nothing is stranded unless an object migrates out before its contents |
| ZoneInvariant.RunKeepsSound | src/github.com/sayotte/gomud2/core/zone.go:1037-1048 | A zone stays sound over any run of acceptable events |
| ZoneInvariant.MoveAcyclicExactly | src/github.com/sayotte/gomud2/core/zone.go:1582-1599 | Putting one object into another keeps containment acyclic exactly when the other is not it or inside it |
| ZoneInvariant.PlacingWithinLimitsExactly | src/github.com/sayotte/gomud2/core/zone.go:1589-1593 | Giving an object to an actor keeps limits exactly when the place has room |
| ZoneInvariant.ExitUpdateExactly | src/github.com/sayotte/gomud2/core/zone.go:1441-1501 | An exit update leaves the exit leading somewhere exactly when it points to another zone, as an internal destination is never resolved; and directions apart exactly when the new one is free at the new source, which is not checked |
| ZoneInvariant.ObjectRemovalExactly | src/github.com/sayotte/gomud2/core/zone.go:1668-1682 | Removing an object strands nothing exactly when it holds nothing |
| ZoneInvariant.ActorRemovalExactly | src/github.com/sayotte/gomud2/core/zone.go:1228-1246 | Removing an actor strands nothing exactly when it holds nothing |
| EventSourcing.ReplayRebuilds | src/github.com/sayotte/gomud2/core/zone.go:363-367 | Seen without lists: replaying only the persisted of events a zone can take is accepted throughout and gives the same view |
| EventSourcing.PersistedIncreasing | src/github.com/sayotte/gomud2/core/zone.go:385-386 | Persisted sequence numbers strictly increase |
| EventSourcing.CounterExactly | src/github.com/sayotte/gomud2/core/zone.go:1139 | The replayed counter equals the live one exactly when the run ends in a persisted event |
| EventSourcing.CoversApplyAll | src/github.com/sayotte/gomud2/core/zone.go:1037-1048 | A zone that differs only in a forgotten default location takes the same events with the same effect |
| PayloadRuns.NumberedRun | src/github.com/sayotte/gomud2/core/zone.go:573-581 | Applying a command's events, numbered in a row, is applying their effects and counting |
| SnapshotOrder.SnapshotWalk.Dfs | src/github.com/sayotte/gomud2/core/zone.go:1773-1784 | The recursion ends although nodes are marked only after their dependencies, and lists what is below the node and not yet visited, dependencies first |
| SnapshotOrder.SnapshotWalk.Order | src/github.com/sayotte/gomud2/core/zone.go:1744-1763 | Walking from every item, in any order of the map, lists each item once, after all it depends on |
| SnapshotOrder.ExtendsMeans | src/github.com/sayotte/gomud2/core/snapshottable.go:4-14 | Nothing is listed twice and every dependency comes before its dependent |
| SnapshotOrder.RankNodes | src/github.com/sayotte/gomud2/core/snapshottable.go:4-6 | In a consistent zone the dependencies are closed and acyclic: a rank exists |
| SnapshotReplay.SnapshotIdentity | src/github.com/sayotte/gomud2/core/zone.go:1744-1771 | Replaying the snapshot of any consistent zone, in any such order, never fails and rebuilds everything but the default location and, for an empty zone, the counter |
| SnapshotStore.SnapshotPlusTail | src/github.com/sayotte/gomud2/store/store.go:88-136 | Newest snapshot and filtered tail rebuild what full replay does, but for a forgotten default location and the counter |
| SnapshotStore.CounterPastPersistedExactly | src/github.com/sayotte/gomud2/core/world.go:342-357 | The loaded zone numbers past all persisted events exactly when something was loaded or nothing had been persisted |
| SnapshotStore.NextEventSeenExactly | src/github.com/sayotte/gomud2/core/world.go:342-357 | The next event, numbered by the counter as loaded, is seen by the next load exactly when this load yielded anything |
| SnapshotStore.ReusedNumberIsLost | src/github.com/sayotte/gomud2/core/zone.go:1744-1771 | A run of events and one snapshot of a zone emptied again after which a new event reuses a number and the next load misses it |
| SnapshotStore.PersistKeepsGood | src/github.com/sayotte/gomud2/store/store.go:24-46 | Persisting a further event keeps every snapshot one of what it stands for |
| SnapshotStore.PersistAllKeepsGood | src/github.com/sayotte/gomud2/core/zone.go:363-367 | And so all that a command persists |
| SnapshotStore.SnapshotKeepsGood | src/github.com/sayotte/gomud2/core/world.go:342-357 | So does snapshotting a zone that was itself loaded from an earlier snapshot |
| ZoneLinks.SeparateIsNoDup | src/github.com/sayotte/gomud2/core/actorinventory.go:53-59 | No item is in two places exactly when the four lists together have no duplicate |
| ZoneLinks.RemoveObjectContents | src/github.com/sayotte/gomud2/core/container.go:16 | removeObject takes that object and no other off the container's list, whichever kind it is |
| ZoneLinks.AddObjectContents | src/github.com/sayotte/gomud2/core/container.go:15 | addObject puts that object and no other on it, an actor's at the named place |
| ZoneLinks.RoomExactly | src/github.com/sayotte/gomud2/core/actorinventory.go:187-197 | A container takes an object on none of its lists exactly when the view has room for it |
| ZoneLinks.PutObjectAgrees | src/github.com/sayotte/gomud2/core/zone.go:1515-1553 | A new object is on exactly its container's list and points back to it |
| ZoneLinks.MoveObjectAgrees | src/github.com/sayotte/gomud2/core/zone.go:1582-1599 | A moved object is on the new container's list, off the old one, and points to the new one; nothing else changed |
| ZoneLinks.DropObjectAgrees | src/github.com/sayotte/gomud2/core/zone.go:1673-1677 | A removed object is on no list |
| ZoneLinks.MoveSubcontainerAgrees | src/github.com/sayotte/gomud2/core/zone.go:1606-1615 | Moving between places of an actor changes that object's place only |
| ZoneLinks.MoveSubcontainerExactly | src/github.com/sayotte/gomud2/core/actorinventory.go:279-307 | With any names at all, the links are kept exactly when the first is unknown, or names where the object is just when the second is known |
| ZoneLinks.MoveActorFromAgrees | src/github.com/sayotte/gomud2/core/zone.go:1216-1222 | An actor moved from where it is, or to where it is, is on exactly one location's list afterwards, its own, and nothing else changes |
| ZoneLinks.MoveActorExactly | src/github.com/sayotte/gomud2/core/zone.go:1173-1184 | A move event keeps each actor on just its own location's list exactly when its from-location is where the actor is, or it is at the to-location already |
| ZoneLinks.PutActorAgrees | src/github.com/sayotte/gomud2/core/zone.go:1153-1166 | A new actor is on its location's list and holds nothing |
| ZoneLinks.DropActorAgrees | src/github.com/sayotte/gomud2/core/zone.go:1234-1238 | A removed actor is on no list |
| ZoneLinks.ReattributeAgrees | src/github.com/sayotte/gomud2/core/zone.go:1295-1300 | Death and damage change attributes and nothing else |
| ZoneLinks.PutExitAgrees | src/github.com/sayotte/gomud2/core/zone.go:1406-1439 | A new exit is listed at its source exactly when its direction is free there; else nothing changes |
| ZoneLinks.UpdateExitAgrees | src/github.com/sayotte/gomud2/core/zone.go:1462-1500 | An update that finds its old direction free at a new source moves the exit between the lists and sets what it says, but for an internal destination |
| ZoneLinks.UpdateExitExactly | src/github.com/sayotte/gomud2/core/zone.go:1485-1500 | An update goes through, and keeps the links, exactly when the exit stays at its source or its old direction is free at the new one |
| ZoneLinks.DropExitAgrees | src/github.com/sayotte/gomud2/core/zone.go:1503-1513 | A removed exit is on no list |
| ZoneLinks.AddLocationAgrees | src/github.com/sayotte/gomud2/core/zone.go:1380-1389 | A new location is empty, and in a sound zone nothing points to it |
| ZoneApplied.AppliedAgrees | src/github.com/sayotte/gomud2/core/zone.go:1050-1133 | Every event the view can take is applied without error to the linked zone, keeps all two-way links and has the view's effect |
| ZoneApplied.PutObjectExactly | src/github.com/sayotte/gomud2/core/zone.go:1539-1543 | A new object is refused exactly when its container has no room |
| ZoneApplied.MoveObjectExactly | src/github.com/sayotte/gomud2/core/zone.go:1582-1593 | A moved object is refused exactly when, without it, the target has no room |
| ZoneApplied.RefusedMoveBreaksLinks | src/github.com/sayotte/gomud2/core/zone.go:1582-1593 | As the object has left the old list by then, the links stay intact exactly when there was room |
| ZoneApplied.RefusedChangesNothing | src/github.com/sayotte/gomud2/core/zone.go:1135-1137 | A refused event that takes nothing off a list first changes nothing |
| ZoneApplied.RefusedExactly | src/github.com/sayotte/gomud2/core/zone.go:1135-1137 | Any refused event leaves the links intact exactly when something of it was missing, and the whole zone unchanged exactly then; else the object or exit was already off its list |
| ZoneApplied.ReplayedAgrees | src/github.com/sayotte/gomud2/core/zone.go:1037-1048 | Replay of acceptable events goes through and agrees with the view |
| ZoneApplied.SubmittedAllAgrees | src/github.com/sayotte/gomud2/core/zone.go:573-581 | So do the events of a command, each numbered as it is submitted |
| ZoneCommands.CheckedExactly | src/github.com/sayotte/gomud2/core/zone.go:372-1007 | For every command that carries its event: once checked, the event is applied without an error and leaves links agreeing and the zone consistent exactly when what the handler leaves unchecked holds too; and then has the view's effect; what each check lets pass is in module CommandOutcomes |
| ZoneCommands.MoveCheckedExactly | src/github.com/sayotte/gomud2/core/zone.go:830-923 | A checked object move goes through and leaves the zone settled exactly when the hands moved to have room and the target is not inside the object; what the check lets pass is in MoveOutcomes.GivingAnObject |
| ZoneCommands.MoveSubcontainerCheckedAccepts | src/github.com/sayotte/gomud2/core/zone.go:925-949 | For a move between subcontainers the check is enough |
| ZoneCommands.RefusedCommandExactly | src/github.com/sayotte/gomud2/core/zone.go:353-361 | A command of a settled zone whose event is refused has changed nothing but the counter exactly when something of the event was missing beforehand |
| ZoneCommands.LocationFound | src/github.com/sayotte/gomud2/core/object.go:80-82 | The way from a container up through containers ends, in a location of the zone |
| ZoneCommands.SubmittingSettles | src/github.com/sayotte/gomud2/core/zone.go:573-581 | Events that a settled zone can take in a row, and that strand nothing in the end, leave it settled with their combined effect |
| ZoneReplays.AppliedAside | src/github.com/sayotte/gomud2/core/zone.go:1050-1143 | What any event does to a zone, lists included, does not depend on the sequence counter |
| ZoneReplays.ReplayRebuildsZone | src/github.com/sayotte/gomud2/core/zone.go:1037-1048 | Event sourcing: of any events that were applied, acceptable or not, replaying the persisted ones goes through and gives the very same zone, every list in the same order, its counter one past the last persisted event |
| ZoneReplays.SubmittingRecords | src/github.com/sayotte/gomud2/core/zone.go:301-370 | A command whose events go through keeps the record: the zone is what its history makes of what it began as, and all but the dodges was persisted |
| ZoneReplays.RestartRebuilds | src/github.com/sayotte/gomud2/core/world.go:96-113 | Starting again from what was persisted gives the same zone, lists and all, its counter one past the last persisted event |
| RemovalCommands.ClearingExactly | src/github.com/sayotte/gomud2/core/zone.go:651-682 | What a location removal does first goes through exactly when no exit leads from the location to itself and what is there has a default location in the zone to go to |
| RemovalCommands.RemovalExactly | src/github.com/sayotte/gomud2/core/zone.go:637-689 | The removal goes through under just that condition, and leaves the zone settled exactly when besides, with anything there, the default is another location |
| RemovalCommands.FailedRemovalExactly | src/github.com/sayotte/gomud2/core/zone.go:651-682 | A removal that fails has changed nothing exactly when no exit leads from the location or to it: the first of these goes, whatever fails later |
| RemovalRestarts.RelocatedInPlace | src/github.com/sayotte/gomud2/core/zone.go:666-682 | With the default location to be removed itself, relocating everything one by one leaves it all where it was, every list in its order |
| RemovalRestarts.RemovalReplayedExactly | src/github.com/sayotte/gomud2/core/zone.go:637-689 | As only its last event is persisted, a restart finds the zone as a removal left it, lists and all, exactly when there was no exit to clear away and nothing that went anywhere else |
| Arrivals.ArrivingOverlaid | src/github.com/sayotte/gomud2/core/zone.go:457-524 | What taking in an actor makes of a zone is what it would make of an empty location, laid over the zone |
| Arrivals.ArrivingExactly | src/github.com/sayotte/gomud2/core/zone.go:457-524 | Though nothing is checked, taking in an actor that has a location to come to never fails; and it leaves the zone settled exactly when the zone had neither the actor nor any of its things: else one stays on a list besides |
| Commands.CommandSettles | src/github.com/sayotte/gomud2/core/zone.go:301-370 | Every command of a zone that passes its checks, with what they leave open granted, goes through and leaves the zone settled |
| Commands.CommandExactly | src/github.com/sayotte/gomud2/core/zone.go:372-1025 | Every kind of command goes through and leaves a settled zone settled exactly when it passes the checks of its handler and what they leave open holds; the CommandOutcomes, MoveOutcomes, TreeOutcomes and RemovalOutcomes spell both out |
| Commands.DeathOutcome | src/github.com/sayotte/gomud2/core/zone.go:565-583 | A death goes through and settles: everything the actor had, at any depth, is directly in the corpse, listed in the order of the recursion |
| Commands.StrikeOutcome | src/github.com/sayotte/gomud2/core/zone.go:1009-1025 | A blow goes through and settles: nothing, hurt, or a death in the same command; TreeOutcomes.Wounding and Slaying say which and what is taken |
| CommandOutcomes.WhatIsSeen | src/github.com/sayotte/gomud2/core/zone.go:36-47 | What the outcomes below are told in: the entities of the zone and, of what an actor has, the list it is on |
| CommandOutcomes.AddingAnActor | src/github.com/sayotte/gomud2/core/zone.go:372-390 | An actor is added exactly when its location is known and its ID is not; then it is there and is logged, and the zone is settled; else nothing changed |
| CommandOutcomes.MovingAnActor | src/github.com/sayotte/gomud2/core/zone.go:391-425 | An actor moves exactly when both locations and it are known and an exit leads from the one to the other; the zone is settled then exactly when it was at either |
| CommandOutcomes.RelocatingAnActor | src/github.com/sayotte/gomud2/core/zone.go:424-441 | An actor is relocated exactly when it and the location are known |
| CommandOutcomes.RemovingAnActor | src/github.com/sayotte/gomud2/core/zone.go:443-455 | An actor is removed exactly when it is known; the zone is settled then exactly when the actor held nothing |
| CommandOutcomes.Speaking | src/github.com/sayotte/gomud2/core/zone.go:585-605 | Who is in the zone can speak, which changes nothing but is logged |
| CommandOutcomes.AddingALocation | src/github.com/sayotte/gomud2/core/zone.go:608-620 | A location is added exactly when its ID is new |
| CommandOutcomes.UpdatingALocation | src/github.com/sayotte/gomud2/core/zone.go:622-635 | A known location always takes its new description, an unknown one never |
| CommandOutcomes.SettingTheDefault | src/github.com/sayotte/gomud2/core/zone.go:994-1007 | The default location is set exactly to one that is known |
| CommandOutcomes.AddingAnExit | src/github.com/sayotte/gomud2/core/zone.go:691-720 | An exit is added exactly when its ID is new, its source is known, so is its destination if that is of this zone, and no other exit from there has its direction |
| CommandOutcomes.UpdatingAnExit | src/github.com/sayotte/gomud2/core/zone.go:722-785 | Exactly when an exit is updated, the prior states refused and the old direction at a new source included; what it leads to then; exactly when the zone is settled; and what its handler refuses without a trace |
| CommandOutcomes.RemovingAnExit | src/github.com/sayotte/gomud2/core/zone.go:787-799 | An exit is removed exactly when it is known |
| CommandOutcomes.AddingAnObject | src/github.com/sayotte/gomud2/core/zone.go:802-828 | An object is added exactly when its ID is new, its container is there and, if that is an actor, the list named has room; then it is there, at that place |
| CommandOutcomes.RelocatingAnObject | src/github.com/sayotte/gomud2/core/zone.go:951-977 | The same for one that is relocated, itself not counted; the zone is settled then exactly when it does not go into itself |
| CommandOutcomes.RemovingAnObject | src/github.com/sayotte/gomud2/core/zone.go:979-992 | An object is removed exactly when it is known; the zone is settled then exactly when nothing was in it |
| CommandOutcomes.NotCarried | src/github.com/sayotte/gomud2/core/zone.go:301-352 | No other event is let pass as a command that carries it |
| MoveOutcomes.WhereThingsAre | src/github.com/sayotte/gomud2/core/object.go:80-82 | Where anything lies: an actor's things where the actor is, and what is in an object where that is |
| MoveOutcomes.GivingAnObject | src/github.com/sayotte/gomud2/core/zone.go:830-923 | Exactly when an object is moved: from the container it is in, itself not full, to another in the same location, one of the two an actor, not by a thief, and into hands only if they have room; the zone is settled then exactly when it did not go into itself |
| MoveOutcomes.RefusingToGive | src/github.com/sayotte/gomud2/core/zone.go:830-923 | All else is refused without a trace, but for want of room in the hands |
| MoveOutcomes.MovedStaysInLocation | src/github.com/sayotte/gomud2/core/zone.go:845-847 | However a move ends, the object lies in the location it lay in before, unless it went into itself |
| MoveOutcomes.DroppingAnObject | src/github.com/sayotte/gomud2/core/zone.go:830-923 | Whatever an actor has it can drop where it stands, unless it has as many things as it has slots in all |
| MoveOutcomes.PickingUpAnObject | src/github.com/sayotte/gomud2/core/zone.go:830-923 | And it can take what lies there exactly when its hands have room and the location is not full |
| MoveOutcomes.ShiftingAnObject | src/github.com/sayotte/gomud2/core/zone.go:925-949 | Exactly when an object is moved between two places of an actor: it is at the one, the other is not full by its own limits, and the mover stands where the actor does; then it is at the other |
| TreeOutcomes.AllItHas | src/github.com/sayotte/gomud2/core/container.go:26-36 | What the outcomes below mean by all that an actor has: just what is in it and what is in something it has |
| TreeOutcomes.ListsInOrder | src/github.com/sayotte/gomud2/core/container.go:26-36 | Of what it has on it, the things come in the order of its lists: back, belt, body, hands |
| TreeOutcomes.Dying | src/github.com/sayotte/gomud2/core/actor.go:581-615 | The actor is gone, a corpse of its name lies where it stood, with the capacity and description corpses have, and all that the actor had is directly in it; nothing else changed |
| TreeOutcomes.CorpseHolds | src/github.com/sayotte/gomud2/core/actor.go:595-611 | The corpse lists it all, each thing once and after what it was in |
| TreeOutcomes.DeathLogged | src/github.com/sayotte/gomud2/core/actor.go:581-615 | What is logged of it, event by event and number by number |
| TreeOutcomes.Dodging | src/github.com/sayotte/gomud2/core/combat.go:182-196 | A blow lands exactly on one who stands where the attacker does; dodged, it takes up a number and is not logged |
| TreeOutcomes.Wounding | src/github.com/sayotte/gomud2/core/zone.go:1344-1353 | A blow that is not dodged and leaves something of all three takes from physical, stamina and focus just the damage to each, and nothing else from anything |
| TreeOutcomes.WoundedState | src/github.com/sayotte/gomud2/core/zone.go:1344-1353 | The same of the zone itself, lists and all, whatever zone it is |
| TreeOutcomes.Slaying | src/github.com/sayotte/gomud2/core/combat.go:182-196 | One that leaves nothing of any of the three ends as the target's death would |
| TreeOutcomes.SlayingLogged | src/github.com/sayotte/gomud2/core/combat.go:182-196 | Logged as the blow and then the death |
| TreeOutcomes.SendingOut | src/github.com/sayotte/gomud2/core/zone.go:526-563 | The actor and all it has are gone, nothing else |
| TreeOutcomes.SendingOutLogged | src/github.com/sayotte/gomud2/core/zone.go:526-563 | Each of its things in turn is logged to leave, then the actor |
| TreeOutcomes.TakingInExactly | src/github.com/sayotte/gomud2/core/zone.go:457-524 | An actor is taken in exactly where there is a location for it; the zone is settled then exactly when neither it nor any of its things was there |
| TreeOutcomes.TakingIn | src/github.com/sayotte/gomud2/core/zone.go:457-524 | Then it is there with all it has in the zone it comes from, every thing in the same container and at the same place; nothing else changed |
| TreeOutcomes.TakingInLogged | src/github.com/sayotte/gomud2/core/zone.go:457-524 | Logged as the actor and then each thing in turn, by container and name of its place |
| RemovalOutcomes.RemovingALocation | src/github.com/sayotte/gomud2/core/zone.go:637-689 | Exactly when a location is removed: no exit leads from it to itself, and nothing is there or a default location is in the zone; the zone is settled then exactly when what is there does not go to the location removed |
| RemovalOutcomes.LocationGone | src/github.com/sayotte/gomud2/core/zone.go:637-689 | Then its exits and those to it are gone, what was there is at the default location, and nothing else changed |
| RemovalOutcomes.RemovalLogged | src/github.com/sayotte/gomud2/core/zone.go:637-689 | Of all this only the last event is logged, numbered after the others |
| CommandRestarts.FailedCommandExactly | src/github.com/sayotte/gomud2/core/zone.go:353-361 | A command that passes its check and fails persists nothing; a restart agrees with the zone afterwards exactly when the command is none that takes something off a list first: an object relocated or moved, an exit updated, or a removal with an exit to clear away |
| CommandRestarts.SettledExactly | src/github.com/sayotte/gomud2/core/zone.go:301-370 | A command leaves a settled zone settled, however it ends, exactly when it went through with what its handler leaves open, failed harmlessly, or is a removal that failed |
| CommandRestarts.RestartExactly | src/github.com/sayotte/gomud2/core/zone.go:353-367 | After any command of a settled zone a restart finds it, lists and all, as the command left it exactly when the command failed harmlessly or went through without clearing anything away unpersisted |
| CommandRestarts.WholeLife | src/github.com/sayotte/gomud2/core/zone.go:1035-1048 | From any zone, through any commands each refused, persisted in full or failing harmlessly, and a restart from what was persisted: the same zone |
| CommandRestarts.RunSettles | src/github.com/sayotte/gomud2/core/zone.go:301-370 | Over any run of such commands, removals that clear something away included, the zone stays settled |
| CommandCrashes.CutRebuilds | src/github.com/sayotte/gomud2/core/zone.go:363-367 | A log cut after any of the events that one command persists rebuilds the zone as the command had made it up to some event |
| CommandCrashes.CutSendOutExactly | src/github.com/sayotte/gomud2/core/zone.go:526-563 | An actor half sent out leaves a settled zone exactly when nothing is left that was in something already gone |
| CommandCrashes.CrashExactly | src/github.com/sayotte/gomud2/core/zone.go:363-367 | A crash while any command is being persisted: a restart finds a settled zone exactly when the command is not sending out an actor, or has stranded nothing so far |
| MigrationCrashes.CrashKeepsAll | src/github.com/sayotte/gomud2/core/world.go:260-275 | Whatever the moment of a crash while an actor is moved: it is found in at least one zone, in both unless nothing was taken in or all was sent out, and none of its things is lost |
| MigrationCrashes.RetryExactly | src/github.com/sayotte/gomud2/core/world.go:253-283 | Moving the actor again after the restart works out exactly when nothing at all had been taken in |
| MigrationCrashes.SendingOutFinishes | src/github.com/sayotte/gomud2/core/world.go:253-283 | When all had been taken in, sending the actor out, or going on with that, leaves both zones as they would have been without the crash |
| ZoneLives.EveryLife | src/github.com/sayotte/gomud2/core/world.go:96-123 | Over any mix of commands, snapshots and restarts from an empty zone: links agree, the zone is consistent, the stored events and snapshots stay good to load from, and replaying the log gives the zone but for a default location that a snapshot forgot |
| ZoneLives.RestartAnyTime | src/github.com/sayotte/gomud2/core/world.go:96-123 | At any time in such a life a restart gives a settled zone with the same view, but for that; and while no snapshot was taken the very same zone, lists and all, but for the counter |
| ZoneLives.RestartCountsExactly | src/github.com/sayotte/gomud2/core/zone.go:76-78 | After a restart all numbers given out are below the counter exactly when something was loaded or nothing is stored |
| ZoneFailures.RemovingAFullObject | src/github.com/sayotte/gomud2/core/zone.go:979-992 | A run of checked commands after which an object is removed with another in it, stranding that |
| ZoneFailures.PuttingIntoItself | src/github.com/sayotte/gomud2/core/zone.go:951-977 | One after which an object is put into what is in it |
| ZoneFailures.SendingToFullHands | src/github.com/sayotte/gomud2/core/zone.go:951-977 | One that fills the hands of an actor, however many items they hold, after which one more is sent to them and ends up on no list |
| ZoneFailures.PickingUpWithFullHands | src/github.com/sayotte/gomud2/core/zone.go:830-923 | The same when the actor picks it up: the fullness looked at is that of the container it came from |
| ZoneFailures.RemovingABurdenedActor | src/github.com/sayotte/gomud2/core/zone.go:443-455 | One after which an actor is removed with an object in hand |
| ZoneFailures.MovingFromElsewhere | src/github.com/sayotte/gomud2/core/zone.go:391-422 | One after which an actor is moved from a location where it is not, and is listed twice |
| ZoneFailures.UpdatingAnExitWithin | src/github.com/sayotte/gomud2/core/zone.go:722-785 | One after which an exit is updated to lead within the zone, and leads nowhere |
| ZoneFailures.UpdatingToATakenDirection | src/github.com/sayotte/gomud2/core/zone.go:722-785 | One after which an exit is updated to a direction another exit of its location has |
| ZoneFailures.UpdatingToATakenSource | src/github.com/sayotte/gomud2/core/zone.go:1485-1500 | One after which an update to another source is refused with the exit already off its list |
| ZoneFailures.RemovingALoop | src/github.com/sayotte/gomud2/core/zone.go:651-659 | One after which removing a location fails with its exit gone |
| ZoneFailures.RemovingTheDefault | src/github.com/sayotte/gomud2/core/zone.go:660-682 | One after which the default location is removed from under its actors |
| ZoneFailures.CheckedSeen | src/github.com/sayotte/gomud2/core/zone.go:372-1007 | What the handlers check, told of what a settled zone looks like, for every kind of event and both ways |
| ObjectTrees.TuplesComplete | src/github.com/sayotte/gomud2/core/container.go:26-36 | The recursion lists every object inside the container, at any depth, once, with its own container, and after it |
| ObjectTrees.ListingLeast | src/github.com/sayotte/gomud2/core/container.go:26-36 | Such a list is exactly the least set holding all that is in the container or in something listed |
| ActorDeaths.DeathConserves | src/github.com/sayotte/gomud2/core/actor.go:581-615 | All events of a death are accepted; the actor holds nothing when it is removed; everything it had, at any depth, is directly in the one new corpse where it stood; nothing else changed |
| Corpses.CorpseLists | src/github.com/sayotte/gomud2/core/actor.go:595-611 | And the corpse lists it all in the order in which the recursion found it, containers before their contents |
| ActorDeaths.MeleeRun | src/github.com/sayotte/gomud2/core/combat.go:182-196 | A dodged blow changes nothing, one that spends any of the three attributes ends as a death, any other only hurts; how much is in TreeOutcomes.Wounding |
| Migrations.MigrateInRun | src/github.com/sayotte/gomud2/core/zone.go:457-524 | Taking in the actor and its objects, containers first, is accepted throughout and reproduces containers and places |
| Migrations.MigrateOutRun | src/github.com/sayotte/gomud2/core/zone.go:526-563 | Sending them out is accepted throughout, containers first as well, and leaves nothing stranded at the end |
| Migrations.MigrationConserves | src/github.com/sayotte/gomud2/core/world.go:253-283 | After both, actor and whole object tree are in the other zone with the same containers and places, and the rest of both zones is as before |
| Migrations.NeverInNeither | src/github.com/sayotte/gomud2/core/world.go:260-275 | The actor leaves the first zone only in the last step, when it is in the other |
| LocationRemovals.LocationRemovalExactly | src/github.com/sayotte/gomud2/core/zone.go:637-689 | With somewhere else for things to go, removing exits, relocating and removing the location is accepted throughout; the one persisted event alone has the same effect exactly when there was nothing to clear |
| Zones.Zone.AddActorTo | src/github.com/sayotte/gomud2/core/location.go:94-100 | Lists the actor at the location unless it is there |
| Zones.Zone.RemoveActorFrom | src/github.com/sayotte/gomud2/core/location.go:90-92 | Takes it off the list |
| Zones.Zone.AddOutExitTo | src/github.com/sayotte/gomud2/core/location.go:157-169 | Lists the exit unless it or its direction is there |
| Zones.Zone.RemoveExitFrom | src/github.com/sayotte/gomud2/core/location.go:153-155 | Takes the exit off the list |
| Zones.Zone.AddObjectTo | src/github.com/sayotte/gomud2/core/object.go:96-103 | addObject of a location, an actor or an object, refusing duplicates or for want of room |
| Zones.Zone.RemoveObjectFrom | src/github.com/sayotte/gomud2/core/object.go:105-107 | removeObject of a location, an actor or an object |
| Zones.Zone.ApplyActorAddToZone | src/github.com/sayotte/gomud2/core/zone.go:1145-1171 | Falls back on the default location; refused without one |
| Zones.Zone.ApplyActorMove | src/github.com/sayotte/gomud2/core/zone.go:1173-1203 | The new state is that of the specification, whose links ZoneLinks.MoveActorExactly settles |
| Zones.Zone.ApplyActorAdminRelocate | src/github.com/sayotte/gomud2/core/zone.go:1205-1226 | From wherever the actor is |
| Zones.Zone.ApplyActorMigrateIn | src/github.com/sayotte/gomud2/core/zone.go:1248-1272 | Where the location resolves, the actor is listed there and holds nothing; see below for where it does not |
| Zones.Zone.ApplyActorDeparture | src/github.com/sayotte/gomud2/core/zone.go:1274-1287 | Off its location's list and out of the zone, whether removed or migrating |
| Zones.Zone.ApplyActorDeath | src/github.com/sayotte/gomud2/core/zone.go:1289-1303 | Physical, stamina, focus and zeal become zero, and nothing else changes |
| Zones.Zone.ApplyCombatMeleeDamage | src/github.com/sayotte/gomud2/core/zone.go:1344-1353 | From physical, stamina and focus the damage to each is taken, and nothing else changes |
| Zones.Zone.ApplyLocationEvent | src/github.com/sayotte/gomud2/core/zone.go:1380-1404 | Adding, updating or removing a location |
| Zones.Zone.ApplyExitAddToZone | src/github.com/sayotte/gomud2/core/zone.go:1406-1439 | Resolves the destination if it is in this zone, and lists the exit first |
| Zones.Zone.ApplyExitUpdate | src/github.com/sayotte/gomud2/core/zone.go:1441-1501 | The table of destination updates as the code has it, and the lists of both sources |
| Zones.Zone.ApplyExitRemoveFromZone | src/github.com/sayotte/gomud2/core/zone.go:1503-1513 | Off its source's list and out of the zone |
| Zones.Zone.ApplyObjectArrival | src/github.com/sayotte/gomud2/core/zone.go:1684-1719 | Where the container resolves, listed by it first, then known to the zone; see below for where it does not |
| Zones.Zone.ApplyObjectMove | src/github.com/sayotte/gomud2/core/zone.go:1555-1604 | Off one list, then onto the other: refused halfway, it stays off |
| Zones.Zone.ApplyObjectMoveSubcontainer | src/github.com/sayotte/gomud2/core/zone.go:1606-1629 | Locations and objects know only the default subcontainer; an actor moves unchecked |
| Zones.Zone.ApplyObjectAdminRelocate | src/github.com/sayotte/gomud2/core/zone.go:1631-1666 | From wherever the object is |
| Zones.Zone.ApplyObjectDeparture | src/github.com/sayotte/gomud2/core/zone.go:1721-1732 | Off its container's list and out of the zone, whether removed or migrating |
| Zones.Zone.ApplyZoneSetDefaultLocation | src/github.com/sayotte/gomud2/core/zone.go:1734-1742 | Only to a location of the zone |
| Zones.Zone.ApplyEvent | src/github.com/sayotte/gomud2/core/zone.go:1050-1143 | On an event the zone can take: no error, links kept, soundness kept, and exactly the view's effect; the counter is set only then |
| Zones.Zone.ReplayEvents | src/github.com/sayotte/gomud2/core/zone.go:1037-1048 | Replaying events the zone can take never fails and makes of it what they make of its view; else it stops at the first failure; the record begins anew with the zone as replayed |
| Zones.Zone.Handle | src/github.com/sayotte/gomud2/core/zone.go:573-582 | Numbers consecutively and applies, up to the first failure, persisting nothing |
| Zones.Zone.Persist | src/github.com/sayotte/gomud2/core/zone.go:363-367 | Hands the persister everything but dodges, in order |
| Zones.Zone.ProcessCommand | src/github.com/sayotte/gomud2/core/zone.go:301-370 | Refused by its check, a command changes nothing; else it is submitted; from a settled zone, loaded or not, it goes through and settles exactly when what the check leaves open holds, with the view's effect; and a restart finds the zone as it left it exactly when it went through or is of a kind that fails harmlessly; for each kind of event the lemmas of CommandOutcomes say what that comes to |
| Zones.Zone.ProcessObjectMove | src/github.com/sayotte/gomud2/core/zone.go:830-923 | The same for an object move, always into the hands of an actor moved to; what that comes to is in MoveOutcomes |
| Zones.Zone.ProcessObjectMoveSubcontainer | src/github.com/sayotte/gomud2/core/zone.go:925-949 | The same for a move between subcontainers, with no further condition |
| Zones.Zone.ProcessActorDeath | src/github.com/sayotte/gomud2/core/zone.go:565-583 | From any settled zone: settled again, the actor gone, its whole object tree directly in the corpse and listed there in the order of the recursion |
| Zones.Zone.ProcessCombatMelee | src/github.com/sayotte/gomud2/core/zone.go:1009-1025 | Nothing for those apart, nothing but a number for a dodge; a blow that leaves something of all three takes just the damage to each from physical, stamina and focus; else from any settled zone the death follows in the same command |
| Zones.Zone.ProcessActorMigrateIn | src/github.com/sayotte/gomud2/core/zone.go:457-524 | From a settled zone into a settled zone, loaded or not: settled again exactly where the actor is welcome, and then it and its whole object tree appear as they are in the other; the record is kept |
| Zones.Zone.ProcessActorMigrateOut | src/github.com/sayotte/gomud2/core/zone.go:526-563 | Any settled zone stays settled; if the actor is there, it and its whole object tree are gone, and nothing else; the record is kept |
| Zones.Zone.ProcessLocationRemoveFromZone | src/github.com/sayotte/gomud2/core/zone.go:637-689 | From any settled zone: goes through and settles exactly when no exit leads from the location to itself and what is there goes to another; one event persisted; a restart agrees, lists and all, exactly when there was no exit to clear away and nothing that went anywhere else |
| Zones.Zone.Snapshot | src/github.com/sayotte/gomud2/core/zone.go:1744-1771 | The events of an order that lists dependencies first, whose replay into an empty zone never fails and gives the zone but for its default location |
| Worlds.TypeNumbers | src/github.com/sayotte/gomud2/core/event.go:9-32 | The number of every kind of event, and that no other kind has it |
| Worlds.WrittenAsRead | src/github.com/sayotte/gomud2/store/domainconverter.go:139-190 | The number written with an event is exactly the one under which its kind is read |
| Worlds.FramedIsStorable | src/github.com/sayotte/gomud2/store/domainconverter.go:23-114 | So of what is to be persisted everything can be stored that fits its header |
| Worlds.PersistedIsLogged | src/github.com/sayotte/gomud2/store/store.go:24-46 | A file that any zones' events were appended to is a log of them, and what it has of a zone is just what that zone persisted, in order: what LoadZone is given |
| Worlds.StoredForm | src/github.com/sayotte/gomud2/store/combat.go:34-46 | Of a blow the damage to stamina is stored for that to focus too; nothing else of an event is lost |
| Worlds.PersistableExactly | src/github.com/sayotte/gomud2/store/domainconverter.go:25-74 | The store has a form for exactly the events that are to be persisted: all but dodges |
| Worlds.FilteredAfter | src/github.com/sayotte/gomud2/store/store.go:96-133 | The filtered tail is just what comes after the snapshot's number |
| Worlds.LoadedAnswers | src/github.com/sayotte/gomud2/store/store.go:88-136 | What retrieval yields from the bytes is the newest snapshot and what came after it; an empty zone's snapshot, whose number wraps to the largest there is, makes it all events |
| Worlds.AnswerRebuilds | src/github.com/sayotte/gomud2/store/store.go:88-136 | Each such answer rebuilds what a full replay would, but for a forgotten default location and the counter |
| Worlds.AcceptedIsGood | src/github.com/sayotte/gomud2/core/world.go:96-113 | What a zone persisted of events it could take is fit to load it from |
| Worlds.SurvivesExactly | src/github.com/sayotte/gomud2/store/combat.go:34-46 | Events come back from the store as they were exactly when every blow takes as much focus as stamina: the stored form keeps the damage to stamina for both |
| Worlds.UnevenDrifts | src/github.com/sayotte/gomud2/store/combat.go:34-46 | And a replayed blow has the effect it had exactly then |
| Worlds.NothingLoaded | src/github.com/sayotte/gomud2/core/zone.go:76-78 | A load yields nothing only for a zone with nothing in it: for no other can the last number wrap around |
| Worlds.LoadZone | src/github.com/sayotte/gomud2/core/world.go:96-123 | From the bytes of the store to a zone: loading never fails and gives what full replay of the stored events would; the zone is settled exactly when that strands nothing, so every command contract applies to it; its record begins there |
| Worlds.HandleSnapshot | src/github.com/sayotte/gomud2/core/world.go:342-358 | Snapshotting what was loaded, itself perhaps from a snapshot, keeps the store one from which every load is right, as long as the headers fit: every event is filed under the number that its kind is read under; the wrapped number of a zone loaded from nothing included |
| Worlds.HandleMigrateActor | src/github.com/sayotte/gomud2/core/world.go:253-283 | Between any two settled zones, loaded or not: in first, then out; the zone left settled again, the other exactly where the actor is welcome; the actor and its whole tree moved with containers and places, nothing else changed |

## Left out

- Floating-point rounding: costs, damages and attributes are reals or integers; NaN and infinities do not occur.
- Goroutines, channels and locks: a zone and the world take one command at a time, and a channel is the list of what it carries.
- JSON, DEFLATE and the bytes of a timestamp: a codec stands for them that reads a body back under the type it is of and, under any type, reads only bodies of that type, with a parameter that says which 15 bytes are those of a time; reading a body takes exactly the length its header announces.
- The FromDomain and ToDomain structs but for what they lose of a blow's damage, event versions, and the names and zone IDs that events carry only for display.
- ZoneLives.EveryLife: its log holds events as they were made; those of the program's own blows come back from the store unchanged (`Worlds.SurvivesExactly`), as core/combat.go:92-94 and 131-133 deal stamina and focus the same damage.
- ZoneLives.EveryLife: a restart that loads nothing although something is stored, a removal with something to clear away, commands that fail with something changed and commands without what their handlers leave unchecked are not steps of it; `ReusedNumberIsLost`, `RemovalReplayedExactly`, `FailedCommandExactly` and module ZoneFailures show what they do.
- CommandRestarts.FailedCommandExactly: that an actor cannot be taken in without a location is a failure in the model only; the program goes on with a nil location (see Zones.Zone.ApplyActorMigrateIn).
- CommandCrashes.CrashExactly: a persisted event is taken to be whole; what a torn one does is in `EventStream.TornEventFails`. Commands without what their handlers leave unchecked are not covered, and of a removal there is only one event to persist.
- Zones.Zone.ApplyActorMigrateIn: with no resolvable location the program adds an actor with a nil location, and crashes when it is next removed, dies or speaks; the model reports the event as unresolved and changes nothing, because a nil pointer is no location of any zone.
- Zones.Zone.ApplyObjectArrival: with no resolvable container the program adds an object whose container is nil, or crashes on a nil container; the model reports the event as unresolved and changes nothing, for the same reason.
- An event that adds an entity under the nil ID: the constructors draw a random ID for it, a new one at every replay.
- Pointers: IDs stand for the objects they name, so entities are value records in the zone's maps and lists hold IDs. An entity that has left its zone is no longer seen. One that is made under an ID the zone knows is on its list besides the old one, as in the program; what later happens to the two is not told apart.
- Worlds.LoadZone: the zone's nickname, its persister and the world's list of zones are not part of it.
- Nil pointers elsewhere: where an ID of an object move does not resolve and the program goes on with a nil pointer the model reports it as unresolved and stops.
- Sequence numbers as 64-bit words: they are unbounded here, but for the number after which a zone's tail starts, which wraps as in the program.
- The three container fields of an event: at most one is set by those who make events, so an event has one container.
- Input and output errors, syncing, closing files, creating directories, printing.
- Observers, eviction, delays, metrics and every notification: nothing of them flows back into a zone.
- Dice and their arithmetic: whether a blow is dodged and what damage it does are parameters.
- The public methods that build commands; Object.AdminRelocate puts the ID of the object's present container into the field for the new one (core/object.go:154-169).
- The undo handler of the world and the intent logging commented out of migration.
- AStarSearch.AStarFindPath: to end, it needs a finite set of reachable nodes, given as a ghost parameter; the callbacks are pure and costs are not negative.
- DijkstraSearch.DijkstraFindPath: needs that finite set only without a budget; the line it prints for each expansion is left out.
- ZoneApplied.AppliedAgrees: an ExitUpdate to a destination within the zone, and events that name a container or location that is not there, are not acceptable events; what the program does with them is in ZoneStates.Applied, and where it goes wrong in the lemmas whose names end in Exactly.
- ZoneCommands.LocationFound: on a cycle of containers, which a consistent zone does not have, the program would not return; the model's way up stops there.
- ObjectTrees.TuplesComplete: the recursion is bounded by the number of objects, enough in a zone without cycles; on a cycle the program would not return.
- Migrations.MigrationConserves: the migrating actor's objects and those of the new zone have different IDs (`Arrivals.ArrivingExactly` shows that without it the links break), and nothing else happens to its tree meanwhile.
- Zones.Zone.ProcessCombatMelee: choosing the weapon and the damage types.
- Worlds.HandleSnapshot: one zone at a time, with the number it had when it was stopped; the bodies of its events must be short enough for their length fields.
- SnapshotReplay.SnapshotIdentity: the order within lists of actors, objects and exits is not kept by a snapshot, and inventory slots are always zero in a zone.
- Logins, the telnet and web interfaces, spawning, the brain's memory and messages, and the planner's actions.
- The network of cmd binaries and the debugging shell.
