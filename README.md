# Odeza engine core, modelled in Dafny

Odeza is a game-engine skeleton written in Rust. This project models its
bookkeeping core:

- the archetype ECS (entities with recycled indices and generations, single-type archetypes with component columns);
- the job system (a FIFO queue whose jobs wait on the completion flags of earlier jobs) and its task-graph builder;
- the frame, arena and pool allocators, the allocation statistics and the per-subsystem budget tracker;
- the scene graph (parent/child links, roots, dirty flags, descendants);
- the one-shot and repeating `Timer`;
- the renderer's frame graph (resources, passes, lifetimes, execution order);
- the asset database (registration, lookup, reverse dependencies, the recook query);
- the input state (keys, mouse, modifiers, touch, gamepads);
- the platform timer types (`Timestamp`, `RollingTimer`, `PerfCounter`);
- the window and its event queue;
- the clustered-lighting light list and cluster build;
- the editor's play mode and selection.

Each Rust file is one Dafny module:

| file | module |
|---|---|
| crates/odeza-core/src/ecs.rs | `Ecs` in ecs.dfy |
| crates/odeza-core/src/job.rs | `Jobs` in job.dfy |
| crates/odeza-core/src/memory.rs | `Memory` in memory.dfy |
| crates/odeza-core/src/scene.rs | `Scene` in scene.dfy |
| crates/odeza-core/src/time.rs | `Time` in time.dfy |
| crates/odeza-renderer/src/frame_graph.rs | `FrameGraphs` in frame_graph.dfy |
| crates/odeza-assets/src/lib.rs | `Assets` in assets.dfy |
| crates/odeza-platform/src/input.rs | `Input` in input.dfy |
| crates/odeza-platform/src/timer.rs | `PlatformTimer` in platform_timer.dfy |
| crates/odeza-platform/src/window.rs | `Windowing` in window.dfy |
| crates/odeza-renderer/src/lighting.rs | `Lighting` in lighting.dfy |
| crates/odeza-editor/src/lib.rs | `Editing` in editor.dfy |

`Common` (common.dfy) holds `Option`, the `usize` range and wrap-around arithmetic.

Structs whose methods update their own fields are classes, with
`modifies` clauses on their methods. Values that the source stores inside
a container and edits through a reference are datatypes with update
functions, and the owning class reassigns them. These are scene nodes,
gamepad states, arena blocks, archetypes and touch states.

Each class keeps an invariant `Valid()`. Each operation is tied to a value-level
specification function, and the properties the source relies on are
lemmas about those functions. Examples:

- the free list of the ECS holds exactly the dead slots;
- every job the system has accepted is either completed or still queued;
- a resource's lifetime spans exactly the passes that touch it;
- a dependency that needs recooking makes its dependents need it too;
- the rolling timer's ring holds the newest samples.

Each module ends with methods that replay the source's own unit tests as
assertions.

Environment facts are parameters rather than effects:

- the modification times of asset source files are a map `sourceTimes`;
- the clock readings of the platform timer are the `nanos` a `Timestamp` holds;
- window events arrive through `PushEvent`.

Acyclicity is a ghost rank on the operations whose source recurses over a
graph: scene descendants, transform update and `needs_recook`. The
source itself does not check it.

## Model

| member | source | states |
|---|---|---|
| Ecs.NullEntity | crates/odeza-core/src/ecs.rs:47-57 | the null entity carries the reserved index and generation 0, and `is_null` recognises it |
| Ecs.CountAlive | crates/odeza-core/src/ecs.rs:237-239 | the live count never exceeds the number of slots |
| Ecs.CountAliveIsCardinality | crates/odeza-core/src/ecs.rs:237-239 | `entity_count` equals the number of distinct live slots |
| Ecs.CountAliveUpdate | crates/odeza-core/src/ecs.rs:212-227 | rewriting one slot moves the live count by exactly the change in that slot's liveness |
| Ecs.SpawnRecycledKeepsInv | crates/odeza-core/src/ecs.rs:191-209 | reviving the most recently freed slot with a higher generation keeps "the free list is exactly the dead slots, each once" and the row table accurate |
| Ecs.SpawnFreshKeepsInv | crates/odeza-core/src/ecs.rs:191-209 | appending a fresh live slot when nothing is free keeps the free-list and row invariants |
| Ecs.DespawnKeepsInv | crates/odeza-core/src/ecs.rs:212-227 | killing a live entity, dropping its row entry and pushing its index on the free list keeps every invariant |
| Ecs.ComponentPresentIffType | crates/odeza-core/src/ecs.rs:277-322 | under the invariants a component value is found exactly when the entity's archetype lists the type |
| Ecs.AddKeepsInv | crates/odeza-core/src/ecs.rs:242-274 | pushing a value into the single-type archetype of `t` and pointing the entity at the new last row keeps the free-list, archetype and row invariants |
| Ecs.AddObservations | crates/odeza-core/src/ecs.rs:242-274 | after that push the entity has exactly component `t`, holding the new value, and every other entity's components are unchanged |
| Ecs.ExtendKeepsComponents | crates/odeza-core/src/ecs.rs:324-340 | creating a new archetype leaves every entity's components where they were |
| Ecs.OverwriteKeepsInv | crates/odeza-core/src/ecs.rs:294-308 | writing through `get_component_mut` changes that one value and nothing else, and keeps the invariants |
| Ecs.World.constructor | crates/odeza-core/src/ecs.rs:178-188 | a new world has no slots, no free indices, no archetypes and no rows |
| Ecs.World.EntityCount | crates/odeza-core/src/ecs.rs:237-239 | the count is bounded by the slots ever handed out |
| Ecs.World.HasComponentIffGetComponent | crates/odeza-core/src/ecs.rs:277-322 | `has_component` and `get_component` agree on every entity and type |
| Ecs.World.Spawn | crates/odeza-core/src/ecs.rs:191-209 | the new entity is alive and has no component; the count grows by one and nobody dies; the last freed index is reused first with its generation bumped, otherwise index `next_index` with generation 0 |
| Ecs.World.SpawnRecycled | crates/odeza-core/src/ecs.rs:192-197 | the recycling branch: the last free index is popped and revived with generation + 1 |
| Ecs.World.SpawnFresh | crates/odeza-core/src/ecs.rs:198-205 | the fresh branch: a new slot at `next_index` with generation 0 |
| Ecs.World.Despawn | crates/odeza-core/src/ecs.rs:212-227 | succeeds exactly when the entity was alive; the entity then is dead, the count drops by one and its index joins the free list; a stale or dead handle changes nothing |
| Ecs.World.GetOrCreateArchetypeForComponent | crates/odeza-core/src/ecs.rs:324-340 | returns the archetype registered for the type set `[t]`, creating it with the next id on first use and changing nothing otherwise |
| Ecs.World.AddComponent | crates/odeza-core/src/ecs.rs:242-274 | fails with no change on a dead entity; otherwise the entity afterwards has exactly component `t` with the given value (it moves to the single-type archetype), no other entity's components change and the count is unchanged |
| Ecs.World.PushComponent | crates/odeza-core/src/ecs.rs:253-271 | the push into the column, the member list and the row table, keeping the invariants |
| Ecs.World.GetComponentMut | crates/odeza-core/src/ecs.rs:294-308 | found exactly when the component is present; a write then replaces that value and no other value or type membership changes |
| Jobs.JobPriority.Level | crates/odeza-core/src/job.rs:17-28 | priorities are the levels 0 to 3 |
| Jobs.FirstReady | crates/odeza-core/src/job.rs:92-94 | the position of the first queued job whose dependencies are all complete, or the queue length when none is |
| Jobs.FirstReadyRotate | crates/odeza-core/src/job.rs:222-225 | requeueing a blocked front job brings the first ready job one place closer |
| Jobs.FirstReadyIsFirst | crates/odeza-core/src/job.rs:92-94 | a ready job preceded only by blocked ones is the one `FirstReady` finds |
| Jobs.RunLogOfAdds | crates/odeza-core/src/job.rs:376-388 | running only jobs that add a constant adds it once per job run |
| Jobs.RunLogFrame | crates/odeza-core/src/job.rs:157-177 | submitting more jobs does not change the effect of the jobs already run |
| Jobs.SubmitKeepsInv | crates/odeza-core/src/job.rs:157-177 | enqueueing a job whose dependencies are earlier ids keeps "every accepted job is completed or queued" and the queue and log invariants |
| Jobs.RunFrontKeepsInv | crates/odeza-core/src/job.rs:212-233 | running a ready front job and marking it complete keeps the invariants |
| Jobs.RequeueKeepsInv | crates/odeza-core/src/job.rs:212-233 | moving a blocked front job to the back keeps the invariants |
| Jobs.SomeQueuedJobCanRun | crates/odeza-core/src/job.rs:212-233 | since dependencies name earlier jobs, a non-empty queue always holds a ready job, so draining cannot deadlock |
| Jobs.RotateKeepsIds | crates/odeza-core/src/job.rs:222-225 | requeueing keeps the same jobs in the queue |
| Jobs.PopKeepsIds | crates/odeza-core/src/job.rs:217-221 | a job leaves the queue exactly when it enters the run log |
| Jobs.JobSystem.constructor | crates/odeza-core/src/job.rs:119-149 | a new system has at least one worker and no jobs |
| Jobs.JobSystem.NumWorkers | crates/odeza-core/src/job.rs:152-154 | there is always at least one worker |
| Jobs.JobSystem.PendingJobs | crates/odeza-core/src/job.rs:254-257 | the figure reported is the job counter, which counts every job ever submitted, run or queued |
| Jobs.JobSystem.CellIsRunOfLog | crates/odeza-core/src/job.rs:217-221 | the shared state the jobs act on is exactly the result of running the logged jobs in log order |
| Jobs.JobSystem.SomeJobCanRun | crates/odeza-core/src/job.rs:212-233 | under the invariant a non-empty queue has a ready job |
| Jobs.JobSystem.Submit | crates/odeza-core/src/job.rs:157-177 | the job gets the next id, is queued at the back without dependencies and is not complete; nothing runs |
| Jobs.JobSystem.SubmitFn | crates/odeza-core/src/job.rs:180-185 | a closure job is submitted exactly like `submit` |
| Jobs.JobSystem.SubmitWithDeps | crates/odeza-core/src/job.rs:188-209 | the job is queued with the ids of its dependency handles, which name earlier jobs |
| Jobs.JobSystem.RunFront | crates/odeza-core/src/job.rs:218-221 | a ready front job is dequeued, run on the shared state, logged and marked complete |
| Jobs.JobSystem.Requeue | crates/odeza-core/src/job.rs:222-225 | a blocked front job goes to the back, nothing else changes |
| Jobs.JobSystem.StealOne | crates/odeza-core/src/job.rs:212-233 | one step of the drain loop: run the front job when it is ready, otherwise requeue it |
| Jobs.JobSystem.ProcessJobs | crates/odeza-core/src/job.rs:212-233 | runs exactly `min(max_jobs, queue length)` jobs, each leaving the queue as it is logged, and appends them to the log |
| Jobs.JobSystem.WaitFor | crates/odeza-core/src/job.rs:236-243 | returns once the handle's job is complete, having only extended the log |
| Jobs.JobSystem.WaitAll | crates/odeza-core/src/job.rs:246-251 | returns with the queue empty and every submitted job complete, each run exactly once |
| Jobs.DependencyHandles | crates/odeza-core/src/job.rs:313-315 | the handles of a task's dependencies that name tasks already submitted |
| Jobs.KeptDependencies | crates/odeza-core/src/job.rs:313-315 | a dependency on a later task is dropped; a kept one is the earlier task's job id |
| Jobs.DependencyHandlesAreKept | crates/odeza-core/src/job.rs:304-326 | the handle lookup in `execute` yields exactly the ids of the earlier tasks depended on |
| Jobs.TaskJobs | crates/odeza-core/src/job.rs:304-326 | the jobs `execute` submits, one per task, in task order, with consecutive ids |
| Jobs.TaskGraphBuilder.constructor | crates/odeza-core/src/job.rs:285-287 | a new builder has no tasks |
| Jobs.TaskGraphBuilder.AddTask | crates/odeza-core/src/job.rs:290-294 | the task is appended and its index returned |
| Jobs.TaskGraphBuilder.AddDependency | crates/odeza-core/src/job.rs:297-301 | the dependency is recorded when both indices are in range and ignored otherwise |
| Jobs.TaskGraphBuilder.Execute | crates/odeza-core/src/job.rs:304-326 | submits every task in order with consecutive job ids and returns one handle per task |
| Jobs.RunStoreThenDouble | crates/odeza-core/src/job.rs:405-431 | the dependency test: the storing job runs before the doubling job that depends on it |
| Jobs.SubmitCountingChain | crates/odeza-core/src/job.rs:434-454 | the task-graph test's chain of three counting tasks is submitted in order |
| Memory.AlignUp | crates/odeza-core/src/memory.rs:132-161 | rounding up to the alignment gives the least multiple not below the offset |
| Memory.MemoryStats.constructor | crates/odeza-core/src/memory.rs:47-49 | statistics start at zero |
| Memory.MemoryStats.RecordAlloc | crates/odeza-core/src/memory.rs:52-69 | the current figure and count wrap-add; the peak becomes the maximum of the old peak and the new figure |
| Memory.MemoryStats.RecordDealloc | crates/odeza-core/src/memory.rs:72-74 | the current figure wrap-subtracts, the peak and count stay; a deallocation within the figure keeps the peak above it |
| Memory.MemoryStats.Reset | crates/odeza-core/src/memory.rs:92-96 | every figure returns to zero |
| Memory.BumpAsWritten | crates/odeza-core/src/memory.rs:132-161 | the bump step as the source computes it, with wrapping sums; its result offset never exceeds the capacity |
| Memory.Bump | crates/odeza-core/src/memory.rs:132-161 | the intended bump step: it refuses exactly when the aligned request does not fit; otherwise the returned address is aligned, not below the old offset, and the new offset is its end |
| Memory.BumpAsWrittenAgrees | crates/odeza-core/src/memory.rs:132-161 | without wrap-around the source's step is the intended one |
| Memory.BumpAsWrittenAcceptsOversizedRequest | crates/odeza-core/src/memory.rs:139-143 | a request near 2^64 bytes wraps the end offset and is accepted by the source, though the intended step refuses it |
| Memory.FrameAllocator.constructor | crates/odeza-core/src/memory.rs:116-127 | a new frame allocator is empty with the given capacity |
| Memory.FrameAllocator.Alloc | crates/odeza-core/src/memory.rs:132-161 | implements the corrected capacity check of the memory.rs:139-143 Findings row (Memory.Bump), not the wrapping sum written there: fails exactly when the aligned request does not fit, changing nothing; on success returns an aligned address, moves the offset to its end and records the allocation |
| Memory.FrameAllocator.Reset | crates/odeza-core/src/memory.rs:175-178 | the offset and the statistics return to zero |
| Memory.FrameAllocator.Used | crates/odeza-core/src/memory.rs:181-183 | the used figure never exceeds the capacity |
| Memory.FrameAllocator.Remaining | crates/odeza-core/src/memory.rs:191-193 | used plus remaining is the capacity |
| Memory.ArenaBlock.Alloc | crates/odeza-core/src/memory.rs:247-258 | implements the corrected capacity check of the memory.rs:248-251 Findings row (Memory.Bump), not the wrapping sum written there: a block's bump step that refuses exactly when the request does not fit, leaving the block as it was, and keeps the capacity |
| Memory.ArenaBlock.AllocAsWritten | crates/odeza-core/src/memory.rs:247-258 | the block's step as the source computes it, with wrapping sums: fails exactly when the wrapped end passes the capacity, and otherwise moves the offset to that wrapped end |
| Memory.ArenaBlockAsWrittenAgrees | crates/odeza-core/src/memory.rs:247-258 | without wrap-around the source's block step is the corrected one |
| Memory.ArenaBlockAsWrittenAcceptsOversizedRequest | crates/odeza-core/src/memory.rs:248-251 | a request of 2^64 − 50 bytes into a block of 1024 with 100 used is served at offset 100 and moves the offset back to 50, while the corrected block refuses it and the replacement block it would need is too large for a `Layout` |
| Memory.FreshBlockFits | crates/odeza-core/src/memory.rs:288-309 | a request no larger than a fresh block is served from its start |
| Memory.ArenaAllocator.constructor | crates/odeza-core/src/memory.rs:276-285 | a new arena holds one empty block of the block size |
| Memory.ArenaAllocator.Alloc | crates/odeza-core/src/memory.rs:288-309 | implements the corrected check of the memory.rs:248-251 Findings row through Memory.ArenaBlock.Alloc: always succeeds: from the current block when it fits, otherwise from a new block of `max(block_size, size)` that becomes current; the statistics record the size |
| Memory.ArenaAllocator.Reset | crates/odeza-core/src/memory.rs:325-334 | only the first block is kept, emptied, and the statistics return to zero |
| Memory.SpareSlots | crates/odeza-core/src/memory.rs:377-401 | a fresh chunk contributes all its slots but the first to the free list, in order |
| Memory.PopKeepsPoolInv | crates/odeza-core/src/memory.rs:377-401 | handing out the last free slot gives a slot not in use and keeps "free and live slots are disjoint and within the chunks" |
| Memory.NewChunkKeepsPoolInv | crates/odeza-core/src/memory.rs:377-401 | with no free slot, a new chunk's first slot is handed out and the rest become free, keeping the invariant |
| Memory.PushKeepsPoolInv | crates/odeza-core/src/memory.rs:416-420 | returning a live slot keeps the invariant |
| Memory.PoolAllocator.constructor | crates/odeza-core/src/memory.rs:363-374 | the chunk size is raised to at least 16 and no chunk exists yet |
| Memory.PoolAllocator.Alloc | crates/odeza-core/src/memory.rs:377-401 | hands out a slot not in use: the last free one, otherwise the first slot of a new chunk whose other slots become free |
| Memory.PoolAllocator.Dealloc | crates/odeza-core/src/memory.rs:416-420 | a live slot goes back on the free list and is no longer in use |
| Memory.AdmitsAsWritten | crates/odeza-core/src/memory.rs:454-466 | the budget check as the source writes it; without wrap-around it admits exactly the allocations that keep the total within the budget |
| Memory.Admits | crates/odeza-core/src/memory.rs:454-466 | the intended budget check: an admitted allocation keeps the unwrapped total within the budget |
| Memory.AdmitsAsWrittenOversizedRequest | crates/odeza-core/src/memory.rs:457-460 | a near-2^64 request wraps the sum below the budget and is admitted by the source, though the intended check refuses it |
| Memory.MemoryTracker.constructor | crates/odeza-core/src/memory.rs:439-443 | a new tracker has no subsystems |
| Memory.MemoryTracker.RegisterSubsystem | crates/odeza-core/src/memory.rs:446-451 | the subsystem gets the next id, its own zeroed statistics and the given budget; all budgets stay respected |
| Memory.MemoryTracker.RecordAlloc | crates/odeza-core/src/memory.rs:454-466 | implements the corrected budget check of the memory.rs:457-460 Findings row (Memory.Admits), not the wrapping sum written there: succeeds exactly when the id is known and the budget admits the size, and only then records it; every subsystem stays within its budget |
| Memory.MemoryTracker.RecordDealloc | crates/odeza-core/src/memory.rs:469-474 | lowers a known subsystem's figure and ignores an unknown id |
| Scene.Without | crates/odeza-core/src/scene.rs:190-192 | drops every occurrence of one entity and keeps the rest |
| Scene.WithoutKeepsNoDuplicates | crates/odeza-core/src/scene.rs:190-192 | removing a child keeps a repetition-free child list repetition-free |
| Scene.Node.AddChild | crates/odeza-core/src/scene.rs:183-187 | the child is present afterwards, appended only when it was absent; nothing else about the node changes |
| Scene.Node.RemoveChild | crates/odeza-core/src/scene.rs:190-192 | the child is absent afterwards and every other child stays |
| Scene.Node.MarkDirty | crates/odeza-core/src/scene.rs:173-175 | only the dirty flag changes, to set |
| Scene.NewNode | crates/odeza-core/src/scene.rs:147-160 | a new node has no parent and no children and is dirty, visible and enabled |
| Scene.AddThenRemoveChild | crates/odeza-core/src/scene.rs:183-192 | adding then removing a new child restores the node |
| Scene.Kids | crates/odeza-core/src/scene.rs:336-349 | the child lists the scene's recursions follow, one per node |
| Scene.ListContainsItsChildren | crates/odeza-core/src/scene.rs:342-349 | each child in a child list is among the collected descendants |
| Scene.DescendantsAreClosed | crates/odeza-core/src/scene.rs:336-349 | the descendants of a node contain its children and every child of a descendant, and nothing else |
| Scene.ListIsClosed | crates/odeza-core/src/scene.rs:342-349 | the same closure for the descendants of a whole child list |
| Scene.ReachedFromContains | crates/odeza-core/src/scene.rs:296-302 | the entities cleaned from the roots include each root and each of its descendants |
| Scene.Detached | crates/odeza-core/src/scene.rs:221-245 | removal takes exactly the removed entity out of the map |
| Scene.Orphaned | crates/odeza-core/src/scene.rs:233-239 | clearing the children's parents keeps the set of nodes |
| Scene.NodesAfterRemoval | crates/odeza-core/src/scene.rs:221-245 | the map after `remove_node` holds every other node |
| Scene.InScene | crates/odeza-core/src/scene.rs:233-239 | the removed node's children that are still in the scene, the ones that become roots |
| Scene.RemovalKeepsInv | crates/odeza-core/src/scene.rs:221-245 | removal keeps every node keyed by its entity with a repetition-free child list |
| Scene.RemovalDetaches | crates/odeza-core/src/scene.rs:221-245 | after removal the entity is in neither the map nor the roots nor its parent's children; its surviving children are parentless roots; other nodes and roots are untouched |
| Scene.OldParentOf | crates/odeza-core/src/scene.rs:258-288 | the parent a child had before `set_parent` |
| Scene.NodesAfterSetParent | crates/odeza-core/src/scene.rs:258-288 | reparenting keeps the set of nodes |
| Scene.SetParentKeepsInv | crates/odeza-core/src/scene.rs:258-288 | reparenting keeps the scene invariant |
| Scene.SetParentEffects | crates/odeza-core/src/scene.rs:258-288 | the child gets the new parent and is dirty, joins the new parent's list and leaves the old one's; other nodes change only in their child lists, and only the two parents do |
| Scene.SetParentKids | crates/odeza-core/src/scene.rs:258-288 | attaching a parentless node appends it to exactly one child list |
| Scene.SetParentRoots | crates/odeza-core/src/scene.rs:258-288 | the child is a root afterwards exactly when it has no parent, and the other roots are unchanged |
| Scene.SameButDirtyKids | crates/odeza-core/src/scene.rs:304-326 | cleaning dirty flags does not change the hierarchy |
| Scene.CleanedCompose | crates/odeza-core/src/scene.rs:304-326 | cleaning one set of nodes after another cleans their union |
| Scene.SceneGraph.constructor | crates/odeza-core/src/scene.rs:205-210 | a new scene is empty |
| Scene.SceneGraph.AddNode | crates/odeza-core/src/scene.rs:213-218 | the node is stored under its entity as a new node and appended to the roots |
| Scene.SceneGraph.RemoveNode | crates/odeza-core/src/scene.rs:221-245 | returns the node exactly when it was present, leaving the scene described by the removal functions; an absent entity changes nothing |
| Scene.SceneGraph.OrphanChildren | crates/odeza-core/src/scene.rs:233-239 | the loop of `remove_node` that clears each child's parent and appends it to the roots |
| Scene.SceneGraph.SetParent | crates/odeza-core/src/scene.rs:258-288 | the scene afterwards is the one the reparenting functions describe |
| Scene.SceneGraph.Roots | crates/odeza-core/src/scene.rs:291-293 | the root list |
| Scene.SceneGraph.UpdateTransforms | crates/odeza-core/src/scene.rs:296-302 | the dirty flags of exactly the nodes reachable from the roots are cleared and nothing else changes |
| Scene.SceneGraph.UpdateTransformRecursive | crates/odeza-core/src/scene.rs:304-326 | exactly the node and its descendants are cleaned |
| Scene.SceneGraph.UpdateChildren | crates/odeza-core/src/scene.rs:322-325 | exactly a child list and its descendants are cleaned |
| Scene.SceneGraph.FindByName | crates/odeza-core/src/scene.rs:329-333 | finds a node with the name exactly when one exists |
| Scene.SceneGraph.GetDescendants | crates/odeza-core/src/scene.rs:336-340 | returns the pre-order list of descendants |
| Scene.SceneGraph.CollectDescendants | crates/odeza-core/src/scene.rs:342-349 | appends the pre-order descendants to the list it is given |
| Scene.SceneGraph.NodeCount | crates/odeza-core/src/scene.rs:352-354 | the count is zero exactly when the scene is empty |
| Scene.SceneGraph.IsEmpty | crates/odeza-core/src/scene.rs:357-359 | empty exactly when the count is zero |
| Scene.SceneGraph.Clear | crates/odeza-core/src/scene.rs:362-365 | no nodes and no roots remain |
| Scene.FamilyDescendants | crates/odeza-core/src/scene.rs:532-553 | the descendants test's root, two children and grandchild give the order child, grandchild, child |
| Scene.FamilyScene | crates/odeza-core/src/scene.rs:534-546 | four `add_node` calls and three `set_parent` calls build the child lists root: child1, child2 and child1: grandchild |
| Time.FromMillis | crates/odeza-core/src/time.rs:487-496 | a duration in milliseconds, counted in nanoseconds |
| Time.SaturatingSub | crates/odeza-core/src/time.rs:404-406 | the difference, floored at zero |
| Time.Timer.New | crates/odeza-core/src/time.rs:348-355 | a one-shot timer starts at zero, not finished |
| Time.Timer.Repeating | crates/odeza-core/src/time.rs:358-365 | a repeating timer starts at zero, not finished |
| Time.Timer.Tick | crates/odeza-core/src/time.rs:368-385 | a finished one-shot timer ignores ticks; otherwise it fires exactly when the elapsed time reaches the duration; a repeating timer then subtracts the duration and stays unfinished, a one-shot timer finishes |
| Time.Timer.IsFinished | crates/odeza-core/src/time.rs:388-390 | a repeating timer is never finished |
| Time.Timer.Reset | crates/odeza-core/src/time.rs:398-401 | elapsed time and the finished flag are cleared |
| Time.Timer.Remaining | crates/odeza-core/src/time.rs:404-406 | zero exactly when the duration has elapsed, otherwise what is left |
| FrameGraphs.RenderPass.Read | crates/odeza-renderer/src/frame_graph.rs:109-112 | appends the resource to the reads and changes nothing else |
| FrameGraphs.RenderPass.Write | crates/odeza-renderer/src/frame_graph.rs:115-118 | appends the resource to the writes and changes nothing else |
| FrameGraphs.RenderPass.AsyncCompute | crates/odeza-renderer/src/frame_graph.rs:121-125 | marks the pass asynchronous and on the compute queue |
| FrameGraphs.RenderPass.OnQueue | crates/odeza-renderer/src/frame_graph.rs:128-131 | sets only the queue |
| FrameGraphs.RenderPass.Accesses | crates/odeza-renderer/src/frame_graph.rs:251-268 | the resources a pass reads or writes |
| FrameGraphs.NewPass | crates/odeza-renderer/src/frame_graph.rs:97-106 | a new pass touches nothing and runs on the graphics queue |
| FrameGraphs.BuilderKeepsOrder | crates/odeza-renderer/src/frame_graph.rs:332-354 | chained builder calls record reads and writes in call order |
| FrameGraphs.RecordAllAt | crates/odeza-renderer/src/frame_graph.rs:256-266 | recording a pass's accesses opens a lifetime at that pass for a new resource and moves the last use of a known one |
| FrameGraphs.LifetimeIffTouched | crates/odeza-renderer/src/frame_graph.rs:251-268 | a resource has a lifetime exactly when some pass reads or writes it |
| FrameGraphs.FirstUseIsEarliest | crates/odeza-renderer/src/frame_graph.rs:251-268 | the first use is the earliest pass that touches the resource |
| FrameGraphs.LastUseIsLatest | crates/odeza-renderer/src/frame_graph.rs:251-268 | the last use is the latest pass that touches the resource |
| FrameGraphs.PassIds | crates/odeza-renderer/src/frame_graph.rs:270-273 | the pass ids in insertion order |
| FrameGraphs.FindPass | crates/odeza-renderer/src/frame_graph.rs:286-288 | the first pass with the id, or none exactly when no pass has it |
| FrameGraphs.RecordAccesses | crates/odeza-renderer/src/frame_graph.rs:256-266 | the inner loop of `calculate_lifetimes` records every access of one pass |
| FrameGraphs.FrameGraph.constructor | crates/odeza-renderer/src/frame_graph.rs:163-174 | a new graph is empty and not compiled |
| FrameGraphs.FrameGraph.CreateTransient | crates/odeza-renderer/src/frame_graph.rs:177-193 | the resource gets a fresh id, is stored as transient, and the graph needs compiling again |
| FrameGraphs.FrameGraph.CreateTexture | crates/odeza-renderer/src/frame_graph.rs:196-219 | a texture resource with the given size and format gets a fresh id |
| FrameGraphs.FrameGraph.AddPass | crates/odeza-renderer/src/frame_graph.rs:222-231 | hands out a builder for a new pass with the next id |
| FrameGraphs.FrameGraph.Compile | crates/odeza-renderer/src/frame_graph.rs:234-249 | a second compile changes nothing; the first sets the lifetimes of every touched resource, the execution order to the insertion order, no aliasing, and marks the graph compiled |
| FrameGraphs.FrameGraph.CalculateLifetimes | crates/odeza-renderer/src/frame_graph.rs:251-268 | the lifetimes are those of the passes in order |
| FrameGraphs.FrameGraph.TopologicalSort | crates/odeza-renderer/src/frame_graph.rs:270-273 | the execution order is the insertion order |
| FrameGraphs.FrameGraph.CalculateAliasing | crates/odeza-renderer/src/frame_graph.rs:275-278 | no resource is aliased |
| FrameGraphs.FrameGraph.ExecutionOrder | crates/odeza-renderer/src/frame_graph.rs:281-283 | the stored execution order |
| FrameGraphs.FrameGraph.GetPass | crates/odeza-renderer/src/frame_graph.rs:286-288 | a pass with the id, or none exactly when no pass has it |
| FrameGraphs.FrameGraph.GetResource | crates/odeza-renderer/src/frame_graph.rs:291-293 | the resource with the id exactly when it exists |
| FrameGraphs.FrameGraph.Clear | crates/odeza-renderer/src/frame_graph.rs:296-305 | the graph returns to its initial state, id counters included |
| FrameGraphs.FrameGraph.PassCount | crates/odeza-renderer/src/frame_graph.rs:308-310 | the number of built passes |
| FrameGraphs.FrameGraph.ResourceCount | crates/odeza-renderer/src/frame_graph.rs:313-315 | the number of resources |
| FrameGraphs.PassBuilder.constructor | crates/odeza-renderer/src/frame_graph.rs:222-231 | a builder holds its graph and its pass |
| FrameGraphs.PassBuilder.Read | crates/odeza-renderer/src/frame_graph.rs:332-335 | the pass read is recorded |
| FrameGraphs.PassBuilder.Write | crates/odeza-renderer/src/frame_graph.rs:338-341 | the pass write is recorded |
| FrameGraphs.PassBuilder.AsyncCompute | crates/odeza-renderer/src/frame_graph.rs:344-348 | the pass is made asynchronous compute |
| FrameGraphs.PassBuilder.OnQueue | crates/odeza-renderer/src/frame_graph.rs:351-354 | the pass queue is set |
| FrameGraphs.PassBuilder.Build | crates/odeza-renderer/src/frame_graph.rs:357-361 | the pass is appended to the graph and its id returned; nothing else in the graph changes |
| FrameGraphs.TwoPassLifetimes | crates/odeza-renderer/src/frame_graph.rs:409-427 | in the compile test the G-buffer lives from the first pass to the second and the lighting target only in the second |
| FrameGraphs.TwoPassGraph | crates/odeza-renderer/src/frame_graph.rs:409-427 | builds the compile test's two passes |
| Assets.Extensions | crates/odeza-assets/src/lib.rs:101-115 | every asset type has at least one extension and none twice |
| Assets.DefaultTextureImportSettings | crates/odeza-assets/src/lib.rs:153-160 | mipmaps and sRGB on, automatic compression, maximum size 4096 |
| Assets.PreferredCompression | crates/odeza-assets/src/lib.rs:347-354 | mobile platforms get ASTC and desktop platforms BC7 |
| Assets.WithDependentAt | crates/odeza-assets/src/lib.rs:238-251 | recording an asset's dependencies adds it to the dependents of exactly those dependencies |
| Assets.RecordedAsDependent | crates/odeza-assets/src/lib.rs:244-248 | every dependency gains the asset as a dependent |
| Assets.DependentsOnlyGrow | crates/odeza-assets/src/lib.rs:244-248 | registering never removes a dependent |
| Assets.NeedsRecookIn | crates/odeza-assets/src/lib.rs:283-311 | an unknown asset or one whose source changed needs recooking |
| Assets.AnyNeedsRecook | crates/odeza-assets/src/lib.rs:303-308 | true exactly when some dependency needs recooking |
| Assets.RecookPropagates | crates/odeza-assets/src/lib.rs:283-311 | a dependency that needs recooking makes its dependents need it |
| Assets.CleanClosedNeedsNoRecook | crates/odeza-assets/src/lib.rs:283-311 | a set of registered, unchanged assets closed under dependencies needs no recooking |
| Assets.NoRecookIsCleanClosed | crates/odeza-assets/src/lib.rs:283-311 | conversely, an asset needing no recook lies in such a set |
| Assets.AssetDatabase.constructor | crates/odeza-assets/src/lib.rs:217-225 | a new database is empty and keeps its directories |
| Assets.AssetDatabase.Register | crates/odeza-assets/src/lib.rs:238-251 | the asset and its path are stored (replacing earlier entries) and it is recorded as a dependent of each dependency |
| Assets.AssetDatabase.Get | crates/odeza-assets/src/lib.rs:254-256 | the stored asset exactly when the id is registered |
| Assets.AssetDatabase.GetIdByPath | crates/odeza-assets/src/lib.rs:259-261 | the id registered for a path, which is a registered asset |
| Assets.AssetDatabase.GetByType | crates/odeza-assets/src/lib.rs:264-271 | exactly the registered assets of the type |
| Assets.AssetDatabase.GetDependents | crates/odeza-assets/src/lib.rs:274-280 | the recorded dependents, empty for an asset nobody depends on |
| Assets.AssetDatabase.NeedsRecook | crates/odeza-assets/src/lib.rs:283-311 | true for an unknown or changed asset, otherwise exactly when some dependency needs recooking |
| Assets.AssetDatabase.AssetCount | crates/odeza-assets/src/lib.rs:314-316 | the number of distinct registered ids |
| Assets.AssetDatabase.Clear | crates/odeza-assets/src/lib.rs:319-323 | all three tables are emptied |
| Assets.RegisterCount | crates/odeza-assets/src/lib.rs:389-409 | registering a new id adds one asset, and re-registering an id adds none |
| Input.ModifierBit | crates/odeza-platform/src/input.rs:475-488 | each shift, control and alt key maps to its flag; other keys map to no flag |
| Input.ModifiersAfter | crates/odeza-platform/src/input.rs:475-488 | a press sets the key's flag, a release clears it, and the other flags stay |
| Input.TouchState.HandleEvent | crates/odeza-platform/src/input.rs:191-224 | events other than touch events leave the touch state alone |
| Input.TouchState.ClearEnded | crates/odeza-platform/src/input.rs:227-231 | drops exactly the ended and cancelled points and keeps the rest unchanged |
| Input.TouchState.TouchCount | crates/odeza-platform/src/input.rs:181-183 | the number of tracked points |
| Input.TouchState.IsTouching | crates/odeza-platform/src/input.rs:186-188 | true exactly when some point is tracked |
| Input.TouchState.GetPoint | crates/odeza-platform/src/input.rs:176-178 | the point with the id exactly when it is tracked |
| Input.TouchEventEffects | crates/odeza-platform/src/input.rs:191-224 | a start adds a tracked point; other phases update only a tracked point's phase; an unknown id is ignored; other points stay |
| Input.EndedTouchIsCleared | crates/odeza-platform/src/input.rs:191-231 | an ended or cancelled point is gone after `clear_ended`; a moved or started one stays |
| Input.GamepadState.IsButtonPressed | crates/odeza-platform/src/input.rs:279-281 | true exactly when the button is held |
| Input.GamepadIgnoresOthers | crates/odeza-platform/src/input.rs:310-331 | a pad ignores events for other pads and non-gamepad events |
| Input.GamepadEventEffects | crates/odeza-platform/src/input.rs:310-331 | connection marks the pad connected; disconnection clears it; button and axis events update just that button or axis |
| Input.NewGamepad | crates/odeza-platform/src/input.rs:268-276 | a new pad is disconnected with nothing pressed |
| Input.ForwardToPads | crates/odeza-platform/src/input.rs:467-470 | every known pad handles the event |
| Input.HandleEachPad | crates/odeza-platform/src/input.rs:467-470 | the loop over the pads applies the reaction to each one |
| Input.EndFrameOf | crates/odeza-platform/src/input.rs:491-499 | the edge sets are emptied and ended touches are dropped; held keys, buttons, modifiers and pads stay |
| Input.KeyPressEdges | crates/odeza-platform/src/input.rs:425-473 | a press holds the key and marks it just pressed exactly when it was not held already |
| Input.KeyReleaseEdges | crates/odeza-platform/src/input.rs:425-473 | a release lets the key go and marks it just released exactly when it was held |
| Input.EdgesNeedTransitions | crates/odeza-platform/src/input.rs:425-473 | a key or button becomes "just pressed/released" only through its own press of an unheld or release of a held one |
| Input.ReleaseClearsSharedModifier | crates/odeza-platform/src/input.rs:475-488 | releasing either shift (control, alt) clears the flag even if the other side is still held |
| Input.HandleKeepsInv | crates/odeza-platform/src/input.rs:425-473 | every event keeps the invariant: each gamepad is stored under its own id, a set shift, control or alt flag has one of its two keys held, and the super flag is never set |
| Input.EndFrameKeepsInv | crates/odeza-platform/src/input.rs:491-499 | ending the frame keeps the invariant |
| Input.ConnectCreatesPad | crates/odeza-platform/src/input.rs:457-462 | connecting creates the pad when it is new and marks it connected, leaving the other pads |
| Input.ButtonReachesOnlyItsPad | crates/odeza-platform/src/input.rs:463-471 | a button press reaches only the pad with its id |
| Input.DisconnectClearsPad | crates/odeza-platform/src/input.rs:463-471 | a disconnected pad keeps its entry with nothing held |
| Input.InputState.constructor | crates/odeza-platform/src/input.rs:365-367 | a new input state holds nothing |
| Input.InputState.HandleEvent | crates/odeza-platform/src/input.rs:425-473 | the state afterwards is the event's effect on the modelled state |
| Input.InputState.PressKey | crates/odeza-platform/src/input.rs:427-432 | the key-press branch |
| Input.InputState.ReleaseKey | crates/odeza-platform/src/input.rs:433-438 | the key-release branch |
| Input.InputState.PressMouse | crates/odeza-platform/src/input.rs:439-443 | the mouse-press branch |
| Input.InputState.ReleaseMouse | crates/odeza-platform/src/input.rs:444-448 | the mouse-release branch |
| Input.InputState.ConnectGamepad | crates/odeza-platform/src/input.rs:457-462 | the connection branch |
| Input.InputState.UpdateModifiers | crates/odeza-platform/src/input.rs:475-488 | only the modifier flags change |
| Input.InputState.HandleGamepads | crates/odeza-platform/src/input.rs:467-470 | only the pads change, each handling the event |
| Input.InputState.EndFrame | crates/odeza-platform/src/input.rs:491-499 | the state afterwards is the end-of-frame state |
| Input.InputState.IsKeyPressed | crates/odeza-platform/src/input.rs:370-372 | true exactly when the key is held |
| Input.InputState.IsKeyJustPressed | crates/odeza-platform/src/input.rs:375-377 | true exactly when the key went down this frame |
| Input.InputState.IsKeyJustReleased | crates/odeza-platform/src/input.rs:380-382 | true exactly when the key went up this frame |
| Input.InputState.IsMousePressed | crates/odeza-platform/src/input.rs:385-387 | true exactly when the button is held |
| Input.InputState.IsMouseJustPressed | crates/odeza-platform/src/input.rs:390-392 | true exactly when the button went down this frame |
| Input.InputState.HasModifier | crates/odeza-platform/src/input.rs:410-412 | true exactly when every bit of the flag is set |
| Input.InputState.Gamepad | crates/odeza-platform/src/input.rs:420-422 | the pad with the id exactly when it is known, stored under its own id |
| PlatformTimer.Timestamp.AsNanos | crates/odeza-platform/src/timer.rs:24-26 | the stored nanoseconds |
| PlatformTimer.Timestamp.AsMicros | crates/odeza-platform/src/timer.rs:29-31 | the whole microseconds, rounded down |
| PlatformTimer.Timestamp.AsMillis | crates/odeza-platform/src/timer.rs:34-36 | the whole milliseconds, rounded down |
| PlatformTimer.ConversionsAgree | crates/odeza-platform/src/timer.rs:24-36 | milliseconds are the microseconds divided by 1000, and the conversions are monotone |
| PlatformTimer.SeqMin | crates/odeza-platform/src/timer.rs:220-227 | the least element, 0 for none |
| PlatformTimer.SeqMax | crates/odeza-platform/src/timer.rs:230-237 | the greatest element, 0 for none |
| PlatformTimer.RecordKeepsRing | crates/odeza-platform/src/timer.rs:190-194 | writing at the index and advancing it keeps the window holding the newest `min(samples, capacity)` recorded samples |
| PlatformTimer.RollingTimer.constructor | crates/odeza-platform/src/timer.rs:181-187 | at least one zeroed slot; nothing recorded yet |
| PlatformTimer.RollingTimer.Record | crates/odeza-platform/src/timer.rs:190-194 | the sample overwrites the slot at the index, the index advances modulo the capacity, the count grows up to the capacity, and the window stays the newest samples |
| PlatformTimer.RollingTimer.Window | crates/odeza-platform/src/timer.rs:202-207 | the samples the statistics read, one per counted sample |
| PlatformTimer.RollingTimer.Average | crates/odeza-platform/src/timer.rs:202-207 | 0 with no samples, otherwise the mean of the first `count` slots |
| PlatformTimer.RollingTimer.Min | crates/odeza-platform/src/timer.rs:220-227 | 0 with no samples, otherwise the least of the first `count` slots |
| PlatformTimer.RollingTimer.Max | crates/odeza-platform/src/timer.rs:230-237 | 0 with no samples, otherwise the greatest of the first `count` slots |
| PlatformTimer.RollingTimer.Count | crates/odeza-platform/src/timer.rs:240-242 | bounded by the capacity and by the samples recorded |
| PlatformTimer.RollingTimer.Reset | crates/odeza-platform/src/timer.rs:245-249 | every slot zeroed, index and count back to zero |
| PlatformTimer.WindowIsHistoryUntilFull | crates/odeza-platform/src/timer.rs:429-440 | until the ring is full its counted slots are the samples in recording order |
| PlatformTimer.PerfCounter.constructor | crates/odeza-platform/src/timer.rs:341-347 | a named counter at zero |
| PlatformTimer.PerfCounter.Record | crates/odeza-platform/src/timer.rs:350-353 | the count and the total wrap-add one and the duration truncated to 64 bits |
| PlatformTimer.PerfCounter.Count | crates/odeza-platform/src/timer.rs:361-363 | the recorded count |
| PlatformTimer.PerfCounter.TotalNanos | crates/odeza-platform/src/timer.rs:366-368 | the recorded total |
| PlatformTimer.PerfCounter.Reset | crates/odeza-platform/src/timer.rs:386-389 | both figures back to zero |
| PlatformTimer.RecordAddsExactly | crates/odeza-platform/src/timer.rs:350-353 | without overflow a record adds exactly one and the duration |
| PlatformTimer.ThreeSampleStats | crates/odeza-platform/src/timer.rs:429-440 | the test's three frame times have minimum 0.015, maximum 0.017 and sum 0.048 |
| PlatformTimer.RecordThree | crates/odeza-platform/src/timer.rs:429-440 | the rolling-timer test records its three samples in order into five slots |
| Windowing.DefaultConfig | crates/odeza-platform/src/window.rs:32-42 | 1280×720, resizable, windowed, vsync, 60 fps |
| Windowing.MobileConfig | crates/odeza-platform/src/window.rs:47-57 | size from the device, fixed, fullscreen, vsync, 60 fps |
| Windowing.InitialState | crates/odeza-platform/src/window.rs:132-148 | a new window has the configured size and fullscreen flag, scale 1, focus and no minimisation |
| Windowing.CloseAfter | crates/odeza-platform/src/window.rs:212-214 | the close flag is set once a close request arrives and stays set |
| Windowing.LastResizeIsLast | crates/odeza-platform/src/window.rs:189-219 | the last resize found is a resize no later resize follows, and none is found exactly when there was no resize |
| Windowing.EventEffects | crates/odeza-platform/src/window.rs:189-219 | each event changes only the field it names; moves, close requests and redraws leave the state; nothing changes fullscreen |
| Windowing.SizeIsLastResize | crates/odeza-platform/src/window.rs:189-219 | after any event sequence the size is the last resize's, or the starting size with none |
| Windowing.CloseIsSticky | crates/odeza-platform/src/window.rs:212-214 | once set the close flag stays set, and from clear it is set exactly when a close request occurred |
| Windowing.Window.constructor | crates/odeza-platform/src/window.rs:132-148 | the initial state, no events, not closing |
| Windowing.Window.State | crates/odeza-platform/src/window.rs:156-158 | the current state |
| Windowing.Window.Size | crates/odeza-platform/src/window.rs:161-164 | the current width and height |
| Windowing.Window.ShouldClose | crates/odeza-platform/src/window.rs:173-175 | the close flag |
| Windowing.Window.IsFocused | crates/odeza-platform/src/window.rs:227-229 | the focus flag |
| Windowing.Window.IsMinimized | crates/odeza-platform/src/window.rs:232-234 | the minimised flag |
| Windowing.Window.RequestClose | crates/odeza-platform/src/window.rs:178-180 | sets the close flag only |
| Windowing.Window.PollEvents | crates/odeza-platform/src/window.rs:183-186 | hands back the pending events in push order and empties the queue |
| Windowing.Window.PushEvent | crates/odeza-platform/src/window.rs:189-219 | the state reacts to the event, a close request sets the flag, and the event is queued at the end |
| Windowing.Window.SetFullscreen | crates/odeza-platform/src/window.rs:222-224 | only the fullscreen flag changes |
| Windowing.PushAll | crates/odeza-platform/src/window.rs:262-273 | pushing events one by one applies them in order and queues them all |
| Lighting.TypeCode | crates/odeza-renderer/src/lighting.rs:10-19 | the light-type discriminant is below 4 |
| Lighting.TypeCodeInjective | crates/odeza-renderer/src/lighting.rs:10-19 | distinct light types have distinct codes |
| Lighting.Pack | crates/odeza-renderer/src/lighting.rs:255-273 | the GPU record carries the light's type code |
| Lighting.DefaultConfig | crates/odeza-renderer/src/lighting.rs:164-171 | 32 lights per cluster, 4 volumetric lights, a 16×8×24 grid, clustering on |
| Lighting.Indices | crates/odeza-renderer/src/lighting.rs:276-295 | the light indices in order |
| Lighting.Capped | crates/odeza-renderer/src/lighting.rs:276-295 | a cluster's list never exceeds the per-cluster cap and holds the first indices in order |
| Lighting.OfferExtendsCapped | crates/odeza-renderer/src/lighting.rs:288-293 | offering the next light appends it exactly when the cluster has room |
| Lighting.LightingSystem.constructor | crates/odeza-renderer/src/lighting.rs:201-212 | no lights, no sun, one empty cluster per grid cell |
| Lighting.LightingSystem.SetSun | crates/odeza-renderer/src/lighting.rs:215-218 | a directional light becomes the sun |
| Lighting.LightingSystem.Sun | crates/odeza-renderer/src/lighting.rs:221-223 | the sun, if set |
| Lighting.LightingSystem.LightCount | crates/odeza-renderer/src/lighting.rs:242-244 | the queued lights, never more than 1024 |
| Lighting.LightingSystem.ClearClusters | crates/odeza-renderer/src/lighting.rs:249-251 | every cluster is emptied |
| Lighting.LightingSystem.Clear | crates/odeza-renderer/src/lighting.rs:247-252 | no lights and empty clusters; the sun stays |
| Lighting.LightingSystem.AddLight | crates/odeza-renderer/src/lighting.rs:255-273 | the light's record is queued below the 1024 cap and silently dropped at it |
| Lighting.LightingSystem.OfferToAll | crates/odeza-renderer/src/lighting.rs:288-293 | one light is offered to every cluster, which accepts it while below the cap |
| Lighting.LightingSystem.BuildClusters | crates/odeza-renderer/src/lighting.rs:276-295 | every cluster ends up holding the first `min(lights, cap)` light indices in order |
| Editing.WithSelected | crates/odeza-editor/src/lib.rs:210-214 | the id joins the selection once, at the end, unless already selected |
| Editing.WithSelectedIdempotent | crates/odeza-editor/src/lib.rs:255-266 | adding the same id twice selects what adding it once does |
| Editing.Editor.constructor | crates/odeza-editor/src/lib.rs:146-157 | stopped, translate gizmo in world space, no debug view, nothing selected |
| Editing.Editor.Play | crates/odeza-editor/src/lib.rs:180-183 | playing and not paused |
| Editing.Editor.Pause | crates/odeza-editor/src/lib.rs:186-188 | paused, play state kept |
| Editing.Editor.Stop | crates/odeza-editor/src/lib.rs:191-194 | neither playing nor paused |
| Editing.Editor.Step | crates/odeza-editor/src/lib.rs:197-201 | nothing changes |
| Editing.Editor.Select | crates/odeza-editor/src/lib.rs:204-207 | the selection becomes exactly the id |
| Editing.Editor.AddToSelection | crates/odeza-editor/src/lib.rs:210-214 | the id is appended unless already selected; no id is ever selected twice |
| Editing.Editor.ClearSelection | crates/odeza-editor/src/lib.rs:217-219 | nothing selected |

## Left out

- Floating point: positions, deltas, scales, colours, ranges, angles, axis dead zones, pinch scale and `Timer::progress` are not modelled. Rolling-timer samples, axis values and scale factors are exact reals without arithmetic rounding.
- `RollingTimer::min` and `max` panic on NaN samples; reals have no NaN, so this is not modelled. `average_fps`, `FrameTimer`, `PerfCounter::average_nanos`/`average_millis` and the window's `aspect_ratio` are float arithmetic and are left out.
- Wall clocks: `Timestamp::now`, `elapsed`, `as_secs`, `HighResTimer`, `ScopedTimer` and `PerfCounter::time` read the clock; a `Timestamp` here is the nanoseconds it holds.
- The `TimeManager`, `Stopwatch` and fixed-step parts of time.rs are not part of this model; only `Timer` is.
- Transforms, matrices and `world_matrix`: `update_transforms` is modelled by the dirty flags it clears, not by the matrices it computes. `get_node`/`get_node_mut` are plain map lookups.
- Scene.SceneGraph.UpdateTransforms, GetDescendants and Assets.AssetDatabase.NeedsRecook take a ghost rank proving the hierarchy acyclic; the source recurses without end on a cycle it reaches (`set_parent` and `register` allow one). The model requires the whole hierarchy to be acyclic, which also excludes cycles the source never visits: a cycle unreachable from the roots in `update_transforms`, or one behind a dependency that already needs recooking in `needs_recook`.
- Assets.AssetDatabase.NeedsRecook: the file-metadata read is replaced by the `sourceTimes` map; a missing file counts as unchanged, as in the source, because a failed metadata read skips the timestamp comparison.
- Assets.AssetDatabase.GetByType and GetDependents return sets, because the source's order is hash-map order.
- `AssetId::from_content`/`from_path` hash with a foreign hasher, and `AssetCooker` is a stub; neither is modelled. The editor's `open_project` touches the file system and is left out.
- Counter overflow: the ECS generation (`u32`), `next_index` and `next_archetype_id` (`u32`), the job counter and the frame-graph ids are unbounded naturals. The allocation statistics and `PerfCounter` do model 64-bit wrap-around.
- Memory.FrameAllocator.Alloc requires the alignment to be 0 or a power of two, and Memory.ArenaAllocator.Alloc and Memory.ArenaBlock.Alloc require a power of two (0 excluded); every typed call site passes `align_of::<T>()`. The model does not cover the other inputs: with a non-power-of-two alignment the source's mask returns a misaligned offset without panicking (offset 1, align 3 gives 1), and in the arena an alignment of 0 underflows `align - 1`, which panics in a debug build and yields offset 0, overlapping earlier allocations, in a release build. Pointers are offsets, and `alloc_zeroed`/`alloc_init` only differ in what they write.
- Memory.ArenaAllocator.Alloc requires a new block's size to be a valid layout size, as `Layout::from_size_align` would panic otherwise. Because the current block is modelled with the corrected check, this precondition also excludes requests the source accepts through the wrapping sum of memory.rs:248-251 (a block of 1024 with 100 used and a request of 2^64 − 50 bytes), which it serves from the current block without building a `Layout`.
- `MemoryTracker::get_report` produces floats and strings for display and is left out.
- Concurrency: worker threads, atomics, locks and condition variables are not modelled. The job system's queue is drained by the calling thread, and a job's effect is a function on one shared integer.
- Jobs.JobSystem.SubmitWithDeps requires dependency handles to name jobs already submitted; a handle from another system is not modelled.
- FrameGraphs.PassBuilder: Rust's exclusive borrow of the graph by one builder at a time is not modelled, so pass-id uniqueness is not an invariant.
- Lighting.LightingSystem.SetSun requires a directional light; the source's `assert_eq!` panics on any other type, and that panic is not modelled.
- Time.Timer.Tick adds unbounded naturals; the source's `elapsed += delta` panics on `Duration` overflow.
- Lighting.LightingSystem.constructor requires the grid product to fit in `u32`; the source would panic on overflow in debug builds. Ambient light, `set_ambient`, the light constructors and `effective_color` are float payloads and are left out.
- The window's `Arc<RwLock<…>>` sharing and the platform event loop are not modelled; events arrive through `PushEvent`.

## Findings

| source | as written | input that shows it | evidently intended | confidence | as-written member | corrected member |
|---|---|---|---|---|---|---|
| crates/odeza-core/src/memory.rs:139-143 | `aligned + size` is a `usize` sum that wraps in release builds, so the capacity check can pass for a huge request | offset 100, capacity 1024, size 2^64 − 50, align 1: the end wraps to 50 and the request is accepted | refuse any request whose aligned end exceeds the capacity | not executed | Memory.BumpAsWrittenAcceptsOversizedRequest | Memory.Bump |
| crates/odeza-core/src/memory.rs:248-251 | `ArenaBlock::alloc` computes the same wrapping `aligned_offset + size` as the frame allocator | block capacity 1024, offset 100, size 2^64 − 50, align 1: the end wraps to 50, the request is served at offset 100 and the block offset moves back to 50 | refuse any request whose aligned end exceeds the block's capacity, so that the arena opens a new block | not executed | Memory.ArenaBlockAsWrittenAcceptsOversizedRequest | Memory.ArenaBlock.Alloc |
| crates/odeza-core/src/memory.rs:457-460 | `current + size` is compared with the budget after a wrapping sum | current 500, size 2^64 − 100, budget 1000: the sum wraps to 400 and the allocation is admitted | refuse any allocation whose true total exceeds the budget | not executed | Memory.AdmitsAsWrittenOversizedRequest | Memory.Admits |
