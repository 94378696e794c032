# RNG2024 core in Dafny

A Dafny model of the runtime core of the RNG2024 game (C++, raylib): the
entity-component manager, the integer AABB physics resolver, and the small
self-contained components and loaders around them. Each part keeps the form
of its source. Code that updates fields in place is a `class` whose methods
are proved against specification functions of the old state. Pure lookups
and conversions are functions. The properties the source promises are lemmas
about those functions.

Modules, following the source files:

- `Component`, `Colors`, `Wrappers`: entities, component type ids and the djb2 `hash`, the `ComponentsSpan` view, the palette, and the Option and Result types.
- `ComponentStore`: `ComponentManager`, the per-type store of 4096 slots. It keeps a dense record array and swaps the last record into a removed slot. Reference indices stay stable across that compaction.
- `EntityContainer`: the live-entity array and the monotonic allocator.
- `Manager`, `ManagerCalls`, `ManagerInit`, `RenderOrder`: the manager, with its hooks recorded as calls. It covers:
  - the init fixpoint, which runs every `init` exactly once;
  - deferred destruction through a FIFO queue;
  - the stable descending-depth sort of draw calls;
  - the resumable render cursor;
  - persistence and `destroy_non_persistent_entities`.
- `Masks`, `PhysicsBody`, `Physics`: masks and bodies, the solid and non-solid queries with their one-way rule, and the per-axis blocking. Also `move_xy`'s clamped, per-pixel stepping, its ride and push transport, and the collision broadcasts, kept as an event log.
- `Hurtables`, `Interactables`, `CachedResources`, `Sprites`, `Input`: the gameplay components, each a class over its fields.
- `LevelDefinitions`, `Levels`, `LevelLoading`: typed level fields and their lookups, and the static field store and entity registry. Also the level builder, which turns solid tiles into blocks, hands out entity ids and resolves references. The loader covers LDtk neighbours, tiles, fields, entities, directions, layer depths and hex colours.
- `Ldtk`, `LdtkEnums`: a small JSON datatype, the LDtk enumeration tables, and the three small integer structs with their round trips.
- `Games`: timers, deferred draws, the message typewriter, skipped ticks, the level-edge transition and the phase order of `G_update_game`.

Conventions:

- Floats are `real`. `Floor` and round-half-away-from-zero are written out.
- `CheckCollisionRecs` is assumed to be the strict interval overlap: rectangles that only touch do not collide.
- Fixed-width integers are written out where they wrap or narrow: `size_t` counters modulo 2^64, `int8_t` frame indices, `int32_t` narrowing of LDtk `int64_t` values.
- Where the source uses `ASSERT_RET`/`ASSERT_RET_VAL`, the model follows the release build, which returns the given value.
- In the component store and the entity container, a capacity `assert` is a precondition (`ComponentStore.ComponentManager.Push`, `EntityContainer.EntityContainer.Create`). In the manager, a failed capacity `assert` is an `Err` result instead. `Manager.Manager.CreateEntity` returns `Err(EntityContainerFull)` for the assert at src/manager.cpp:50. `Manager.Manager.AddComponent`, through `ManagerInit.AddToWorld`, returns `Err(CapacityExceeded)` for the assert at src/manager.hpp:462. A release build runs on past both asserts and writes out of bounds. `EntityContainer::contains` is a third case (see "Left out").
- Calls into code that is not modelled become parameters:
  - raylib input and clock readings;
  - the project file's parsed contents;
  - the live-entity set;
  - the sizes of neighbouring levels;
  - the first player's body and Hurtable.

## Model

| member | source | states |
|---|---|---|
| Component.SignedChar | src/component.hpp:23-27 | a `char` read into `int c` is a signed byte in [-128, 128) congruent to the byte |
| Component.CString | src/component.hpp:25 | the bytes the hash loop reads: the longest NUL-free prefix, stopping at the first zero byte |
| Component.Hash | src/component.hpp:20-31 | the loop computes djb2 (start 5381, `h = (h << 5) + h + c` in 64-bit wrap-around) over the C string |
| Component.Djb2 | src/component.hpp:20-31 | djb2 over a byte string: 5381, then each byte, read as a signed `char`, folded in as `h * 33 + c` modulo 2^64; Component.Hash computes it and Component.Djb2Step states its step |
| Component.ShiftAddStep | src/component.hpp:27 | `(h << 5) + h + c` modulo 2^64 equals `h * 33 + c` modulo 2^64 |
| Component.CStringIsPrefix | src/component.hpp:25 | a prefix that is NUL-free and followed by NUL or the end is exactly what the loop reads |
| Component.HashIgnoresTail | src/component.hpp:25-30 | bytes after the terminating NUL never change the hash |
| Component.Djb2Step | src/component.hpp:27 | appending one byte folds it into the previous hash by one djb2 step |
| Component.ComponentsSpan.Elements | src/component.hpp:95-103 | begin() to end() visits `count` records, the k-th being operator[](k) |
| Component.Iterate | src/component.hpp:60-103 | a range-for over the span visits exactly its live records, in slot order |
| Component.SpanEnds | src/component.hpp:90-115 | empty() holds iff nothing is visited; front() is the first record visited and back() the last |
| Colors.PaletteShape | src/game.hpp:22-34 | the palette holds eight distinct opaque colours and PALETTE_WHITE is its last entry |
| ComponentStore.Empty | src/manager.hpp:139-146 | a new store holds no record and no reference, and is consistent |
| ComponentStore.PushSpec | src/manager.hpp:70-83 | push appends the record, a cleared init flag, a reference slot pointing at the new record and a reference to it; properties in ComponentStore.PushKeepsReferences |
| ComponentStore.RemoveAsWritten | src/manager.hpp:96-113 | remove as written: for any slot but the last it agrees with the corrected removal |
| ComponentStore.PushKeepsReferences | src/manager.hpp:70-83 | push keeps the store consistent, adds one record and one reference that resolves to the new record with init cleared, and leaves every other reference and init flag alone |
| ComponentStore.RemoveSpec | src/manager.hpp:96-113 | the corrected remove: the removed reference is set to INVALID_INDEX, and the last record, init flag and reference move into the hole unless the hole is the last slot; properties in ComponentStore.RemoveKeepsReferences |
| ComponentStore.RemoveKeepsConsistent | src/manager.hpp:96-113 | the corrected remove keeps the store consistent, drops one record and keeps the reference count |
| ComponentStore.RemoveKeepsReferences | src/manager.hpp:96-113 | after the corrected remove the removed reference resolves to nothing and every other reference still resolves to its own record and init flag |
| ComponentStore.RemoveFrame | src/manager.hpp:103-110 | remove keeps every other slot and moves the last record into the hole |
| ComponentStore.SetInitSpec | src/manager.hpp:115-119 | set_init_called sets slot i's init flag and nothing else; properties in ComponentStore.SetInitCalledKeepsReferences |
| ComponentStore.SetInitCalledKeepsReferences | src/manager.hpp:115-119 | set_init_called marks just that record as initialised and changes no reference |
| ComponentStore.RemoveLastAsWrittenRevivesReference | src/manager.hpp:96-113 | as written, removing the last of several records re-validates the removed reference, which then aliases the next pushed record; the corrected remove leaves it unresolved |
| ComponentStore.ComponentManager.constructor | src/manager.hpp:139-146 | a fresh store is empty and consistent |
| ComponentStore.ComponentManager.Count | src/manager.hpp:85-88 | count() is the number of live records |
| ComponentStore.ComponentManager.Push | src/manager.hpp:70-83 | push updates the arrays in place as PushSpec describes and keeps the store consistent |
| ComponentStore.ComponentManager.Get | src/manager.hpp:90-94 | get(i) is the component in live slot i |
| ComponentStore.ComponentManager.Remove | src/manager.hpp:96-113 | remove (with the last-slot swap skipped) updates the arrays as RemoveSpec describes and keeps the store consistent |
| ComponentStore.ComponentManager.SetInitCalled | src/manager.hpp:115-119 | set_init_called sets one init flag in place |
| ComponentStore.ComponentManager.WasInitCalled | src/manager.hpp:121-125 | was_init_called(i) reports slot i's init flag |
| ComponentStore.ComponentManager.GetComponentIndex | src/manager.hpp:127-131 | a reference maps to INVALID_INDEX (resolves to nothing) or to the live slot that refers back to it |
| ComponentStore.ComponentManager.GetReferenceIndex | src/manager.hpp:133-137 | a live slot's reference index is in range and resolves back to that slot's record |
| EntityContainer.IndexOf | src/manager.hpp:205 | std::find: the first position holding the entity |
| EntityContainer.RemoveSpec | src/manager.hpp:203-213 | remove of a live entity copies the last identifier over the first occurrence and drops the last slot; an absent entity is kept; properties in EntityContainer.RemoveSpecRemoves |
| EntityContainer.RemoveSpecRemoves | src/manager.hpp:203-213 | swap-with-last removal keeps the identifiers distinct, removes exactly that entity, and is a no-op for an absent one |
| EntityContainer.IndexOfFirst | src/manager.hpp:205 | a position holding the entity with no earlier occurrence is the one std::find returns |
| EntityContainer.EntityContainer.constructor | src/manager.hpp:188-194 | an empty container whose last identifier is ENTITY_START_ID (10) |
| EntityContainer.EntityContainer.Create | src/manager.cpp:47-57 | create hands out previous + 1, never a live identifier, appends it and records it as the last one |
| EntityContainer.EntityContainer.Remove | src/manager.hpp:203-213 | remove swaps the entity with the last live slot and shrinks the count, leaving the live set without it; an absent entity changes nothing |
| EntityContainer.EntityContainer.Contains | src/manager.hpp:215-224 | contains is false for INVALID_ENTITY and otherwise membership in the live prefix |
| Manager.RemoveEntityRecords | src/manager.hpp:350-359 | the remove hook drops every record of the entity and keeps every other reference resolving to the same record with the same init flag |
| Manager.RunSlots | src/manager.hpp:287-371 | one hook loop over a store calls the hook once per live component slot, in slot order (only the entity's own slots for collision and destroyed) |
| Manager.QueueDraws | src/manager.hpp:318-332 | the render hook queues one draw call per component, at its depth or DEFAULT_DEPTH |
| Manager.SweepTypes | src/manager.hpp:399-404 | a sweep over a hook's id set calls the selected types in id order and stops at the first type whose hook is unset (an empty std::function call) |
| Manager.RenderQueue | src/manager.hpp:419-429 | the queued draw calls stably sorted by descending depth: sorted, and a permutation of every draw call of every type with a render hook |
| Manager.RenderQueueContents | src/manager.hpp:419-429 | a draw call is queued exactly when its type renders, its reference resolves and its depth is that component's depth |
| Manager.DefaultPassDrawsAll | src/manager.hpp:417-445 | a pass with the default cutoff from the reset cursor draws every queued call |
| Manager.NonPersistent | src/manager.hpp:657-662 | the live entities that are not persistent, in order |
| Manager.QueueNonPersistent | src/manager.hpp:657-662 | destroy_non_persistent_entities queues exactly the non-persistent live entities behind the queue |
| Manager.DrawPass | src/manager.hpp:435-445 | the drawing loop draws and stores the cursor as the pass function says |
| Manager.RenderPass | src/manager.hpp:417-449 | call_render draws the pass of the sorted queue from the start index and leaves the cursor where that pass stopped |
| Manager.DestroyedStep | src/manager.hpp:396-414 | one turn of the call_destroy loop keeps the invariant relating calls, stores and live set to the entities destroyed so far |
| Manager.Manager.constructor | src/manager.hpp:250-374 | every type registered once: its hooks installed, empty stores, has_new_init set when some type has init, no queue, no persistent entity, cursor reset |
| Manager.Manager.CreateEntity | src/manager.cpp:47-57 | create_entity returns a fresh identifier, one more than the last, and adds it to the live set; a full container is a failure |
| Manager.Manager.DestroyEntity | src/manager.cpp:24-27 | destroy_entity only queues the entity: stores, live set and calls are unchanged |
| Manager.Manager.EntityExists | src/manager.hpp:245-248 | true exactly for a live identifier other than INVALID_ENTITY |
| Manager.Manager.SetPersistent | src/manager.hpp:534-538 | the entity joins the persistent set; nothing else changes |
| Manager.Manager.UnsetPersistent | src/manager.hpp:540-543 | the entity leaves the persistent set; nothing else changes |
| Manager.Manager.IsPersistent | src/manager.hpp:545-548 | membership in the persistent set |
| Manager.Manager.AddComponent | src/manager.hpp:454-469 | fails exactly on INVALID_ENTITY, an unknown type or a full store; otherwise pushes the component, returns a reference resolving to it, and raises has_new_init for a type with init |
| Manager.Manager.AddEntity | src/manager.hpp:640-647 | add_entity creates a fresh entity and gives it the component |
| Manager.Manager.RemoveComponent | src/manager.hpp:471-481 | with the remove hook set, every record of the entity in that store goes and the other stores are unchanged |
| Manager.Manager.SweepHooks | src/game.cpp:574-592 | the calls made are those of the id-ordered sweep, complete exactly when every selected type has the hook set |
| Manager.Manager.CallPhase | src/game.cpp:574-592 | one frame phase calls its hook for every component of every type that has it |
| Manager.Manager.BroadcastCollision | src/physics.cpp:73-77 | every collision hook runs for the owner's components; the broadcast is complete exactly when every type with collision still has its hook |
| Manager.Manager.UnregisterAll | src/manager.cpp:29-36 | every type's hooks are reset; stores and queue are kept |
| Manager.Manager.Register | src/manager.hpp:250-374 | registering a type again reinstalls its hooks, raises has_new_init for init and resets the render cursor for render |
| Manager.Manager.CallInit | src/manager.hpp:377-390 | call_init runs until no new init is pending: afterwards every component of a type with an init hook has had init() called |
| Manager.Manager.RemoveFromStores | src/manager.hpp:406-410 | every store drops the entity's records, and this succeeds exactly when every remove hook is set |
| Manager.Manager.DestroyFront | src/manager.hpp:397-413 | one queued entity: its destroyed hooks run on the stores as they were, its records go from every store, it leaves the live set and the queue |
| Manager.Manager.CallDestroy | src/manager.hpp:392-415 | call_destroy empties the queue, and the calls, stores and live set are those of every queued entity destroyed in turn |
| Manager.Manager.DestroyNonPersistent | src/manager.hpp:654-665 | afterwards the live set is the old persistent live entities minus those already queued, and the queue is empty |
| Manager.Manager.CallRender | src/manager.hpp:417-450 | the render hook calls are the pass over the sorted queue from the start index; the cursor is reset after a default pass and otherwise left where the pass stopped |
| Manager.Manager.RecordPass | src/manager.hpp:417-450 | the drawn calls are appended to the hook calls, and the cursor becomes the last visited index, or the largest size_t after a pass with the default argument, keeping the manager invariant |
| Manager.Manager.GetComponent | src/manager.hpp:502-521 | the reference of the entity's first component in slot order, or INVALID_INDEX when it has none |
| Manager.Manager.GetComponentsOf | src/manager.hpp:483-500 | exactly the slots holding one of the entity's components |
| Manager.Manager.GetComponents | src/manager.hpp:523-532 | a span over exactly the live components of the type, in slot order |
| Manager.Manager.Deref | src/manager.hpp:702-709 | ComponentReference::get yields the component the reference resolves to |
| ManagerCalls.RegisteredHooks | src/manager.hpp:267-373 | register_component always installs remove, and installs init, render, destroyed (and the rest) exactly when the type defines them |
| ManagerCalls.SlotCallsMembership | src/manager.hpp:287-371 | a hook call for a reference is made exactly when the reference is live within the loop bound and its record belongs to the owner |
| ManagerCalls.SlotCallsResolve | src/manager.hpp:287-371 | over all slots of a store, a hook call for a reference is made exactly when the reference resolves to a record of the owner |
| ManagerCalls.TypeCallsMembership | src/manager.hpp:399-404 | over the selected types, a hook call is made exactly for each live reference whose record matches the owner |
| ManagerCalls.DrawDepth | src/manager.hpp:323-330 | a type without a depth member draws at DEFAULT_DEPTH |
| ManagerCalls.SlotDraws | src/manager.hpp:320-331 | one draw call per slot, in slot order, carrying that slot's reference |
| ManagerCalls.SlotDrawsMembership | src/manager.hpp:320-331 | a draw call is queued exactly for a live reference, at that component's depth |
| ManagerCalls.CollectDrawsMembership | src/manager.hpp:419-424 | across the render types a draw call is queued exactly for each live reference of a type with a render hook |
| ManagerInit.FreeSlotsPush | src/manager.hpp:462-467 | each added component uses up one free slot, which bounds the init fixpoint |
| ManagerInit.FreeSlotsReplace | src/manager.hpp:350-359 | removing components never uses up free slots |
| ManagerInit.InitLoggedPush | src/manager.hpp:467 | a pushed component starts with init not called, keeping the log's meaning |
| ManagerInit.InitLoggedMark | src/manager.hpp:275-279 | marking a slot after its init() call keeps every init-called slot logged exactly once |
| ManagerInit.InitLoggedShrink | src/manager.hpp:350-359 | removing records keeps the log's meaning |
| ManagerInit.ProgressTransitive | src/manager.hpp:379-389 | progress of the init loop composes |
| ManagerInit.ProgressKeepsDone | src/manager.hpp:379-389 | a finished store stays finished unless some init hook added a component and raised has_new_init |
| ManagerInit.AddToWorld | src/manager.hpp:454-469 | add_component from inside an init hook: its failures, the pushed record, the reference it returns, the raised flag, one slot fewer |
| ManagerInit.MarkProgress | src/manager.hpp:275-279 | set_init_called marks the slot and is progress |
| ManagerInit.InitRecord | src/manager.hpp:274-279 | one component: init() runs once, may add components, and the slot is marked |
| ManagerInit.SweepType | src/manager.hpp:270-281 | one type's init loop, re-reading count() each turn, finishes with every slot of that store marked |
| ManagerInit.SweepAll | src/manager.hpp:381-388 | one round over the init id set leaves every init type finished, unless a new init was raised |
| ManagerInit.RunInit | src/manager.hpp:377-390 | the whole fixpoint: has_new_init clear and every live component of an init type logged as initialised |
| ManagerInit.NoDuplicatesOnce | src/manager.hpp:275-279 | an element of a duplicate-free log occurs once |
| ManagerInit.InitRunsExactlyOnce | src/manager.hpp:275-279 | in a well-formed state each component's init() has been called exactly once |
| RenderOrder.SortedByDepthPairwise | src/manager.hpp:427-429 | a sorted queue has non-increasing depth between any two positions |
| RenderOrder.InsertByDepth | src/manager.hpp:427-429 | one insertion step of the stable sort: the call goes in front of the first call whose depth is not greater; properties in RenderOrder.InsertByDepthProperties |
| RenderOrder.InsertByDepthProperties | src/manager.hpp:427-429 | inserting a call keeps the queue sorted, adds exactly that call, and keeps each depth's calls in their order behind it |
| RenderOrder.SortByDepth | src/manager.hpp:427-429 | std::stable_sort by descending depth, as insertion from the back; properties in RenderOrder.SortByDepthProperties |
| RenderOrder.SortByDepthProperties | src/manager.hpp:427-429 | std::stable_sort by descending depth: sorted, a permutation, and calls of equal depth keep their relative order |
| RenderOrder.StartIndex | src/manager.hpp:431-433 | the pass resumes where the last one stopped, and restarts at 0 when that index is size - 1 or beyond in size_t arithmetic |
| RenderOrder.DrawFrom | src/manager.hpp:435-445 | the draw loop from index i: draw while depth is at least the cutoff, and store the index of the first refused call, or of the last drawn one; properties in RenderOrder.DrawFromRun |
| RenderOrder.DrawFromRun | src/manager.hpp:435-445 | a pass draws a contiguous run from its start, all at or below the cutoff, and stores the index of the first call it refused |
| RenderOrder.DrawFromSkip | src/manager.hpp:435-445 | a pass splits at any index it reaches |
| RenderOrder.NoCutoffDrawsAll | src/manager.hpp:417-445 | with the default cutoff everything from the start index is drawn |
| RenderOrder.CutoffDrawsDeepCalls | src/manager.hpp:426-445 | on the sorted queue a cutoff pass from 0 draws exactly the calls at depth at or beyond the cutoff |
| RenderOrder.ResumeCompletesPass | src/manager.hpp:431-447 | a cutoff pass followed by a default pass draws every call exactly once, in order, when the cutoff stopped before the last call |
| RenderOrder.StopAtLastRedraws | src/manager.hpp:431-433 | when a cutoff pass stops at the last call, the next default pass starts again from 0 and redraws the first pass's calls |
| Masks.CDiv | src/mask.hpp:14 | C++ integer division, truncating toward zero for negative dividends |
| Masks.Mask.RectAt | src/mask.hpp:17-23 | the rectangle starts at the position less the origin and has the mask's size |
| Masks.Mask.TopLeft | src/mask.hpp:25-28 | the corner at the left and top edges |
| Masks.Mask.TopRight | src/mask.hpp:30-33 | the corner at the right and top edges |
| Masks.Mask.BottomLeft | src/mask.hpp:35-38 | the corner at the left and bottom edges |
| Masks.Mask.BottomRight | src/mask.hpp:40-43 | the corner at the right and bottom edges |
| Masks.Mask.Right | src/mask.hpp:50-53 | the right edge lies one width past the left edge |
| Masks.Mask.Bottom | src/mask.hpp:60-63 | the bottom edge lies one height below the top edge |
| Masks.CornersOfRect | src/mask.hpp:17-43 | the four corners are the corners of the rectangle placed at the same position |
| Masks.CenterRect | src/mask.hpp:12-15 | a mask of the given size whose origin is its truncated centre, inside it for non-negative sizes |
| Masks.EdgesTranslate | src/mask.hpp:17-63 | moving the position moves every edge and the rectangle by the same amount |
| Masks.OverlapSymmetric | src/mask.hpp:17-23 | rectangle overlap does not depend on the order of the two rectangles |
| Masks.TouchingDoNotOverlap | src/mask.hpp:17-23 | rectangles that only share an edge do not overlap |
| PhysicsBody.DefaultBody | src/physics.hpp:28-43 | a new Physics component: at the origin, at rest, collidable, movable, not solid, not one-way, updating, with an empty mask |
| PhysicsBody.EmptyMaskNeverCollides | src/physics.hpp:88-91 | a body whose mask has zero width or height collides with nothing |
| PhysicsBody.OffsetMovesOnlySelf | src/physics.hpp:88-97 | the probe offset shifts only this body's rectangle |
| PhysicsBody.EdgesSpanMask | src/physics.hpp:45-63 | the body's edges are its position less the origin, one mask size apart |
| Physics.RoundHalfAway | src/physics.cpp:69-70 | roundf: the nearest integer, halves rounded away from zero |
| Physics.RoundHalfAwayOdd | src/physics.cpp:321-322 | roundf is symmetric about zero |
| Physics.Clamp | src/physics.cpp:326-327 | std::clamp on integers: the value when inside the bounds, else the nearer bound |
| Physics.ClampReal | src/physics.cpp:117 | std::clamp on the vertical speed |
| Physics.ScanFinds | src/physics.cpp:14-21 | scanning every component finds a hit exactly when some component within the bound is one |
| Physics.IsCollidingWithAny | src/physics.cpp:125-150 | is_colliding_with_any: some other collidable body overlaps at the offset; characterised by Physics.CollidingQueriesFind |
| Physics.IsCollidingWithNonsolid | src/physics.cpp:152-180 | is_colliding_with_nonsolid: some other collidable non-solid body overlaps at the offset, subject to the one-way test; characterised by Physics.CollidingQueriesFind |
| Physics.IsCollidingWithSolid | src/physics.cpp:182-213 | is_colliding_with_solid: some other collidable solid body overlaps at the offset, a one-way solid only when this body's bottom is not below its top; characterised by Physics.CollidingQueriesFind |
| Physics.CollidingQueriesFind | src/physics.cpp:125-213 | is_colliding_with_any, _solid and _nonsolid are true exactly when some other collidable body passing that query's filter overlaps at the offset |
| Physics.Colliding | src/physics.cpp:233-314 | the entities of exactly the bodies passing the filter that overlap at the offset |
| Physics.GetCollidingSolid | src/physics.cpp:233-262 | the solid query's filter, one-way test included |
| Physics.GetCollidingNonsolid | src/physics.cpp:264-291 | the non-solid filter together with the one-way test |
| Physics.GetCollidingAny | src/physics.cpp:293-314 | every collidable other body |
| Physics.SolidAndAnyQueriesAgree | src/physics.cpp:125-150 | the boolean solid and any queries hold exactly when their entity sets are non-empty |
| Physics.NonsolidCollectedImpliesColliding | src/physics.cpp:152-180 | a non-empty non-solid entity set implies the boolean non-solid query |
| Physics.NonsolidQueriesDisagree | src/physics.cpp:152-180 | the converse fails: a one-way non-solid body this body is below counts for the boolean query only |
| Physics.NonsolidQueriesDisagreeExample | src/physics.cpp:152-180 | such a configuration exists |
| Physics.OnewayBelowIgnoredAtEveryOffset | src/physics.cpp:198-199 | a one-way solid whose top is above this body's bottom is never a solid hit, at any offset |
| Physics.IsStanding | src/physics.cpp:215-218 | not moving up, with a solid hit one pixel below |
| Physics.MaskFree | src/physics.cpp:220-231 | with the mask swapped in, no solid hit for a non-solid body and no non-solid hit for a solid one |
| Physics.MaskFreeOwnMask | src/physics.cpp:220-231 | with the body's own mask, mask_free is the negated query for its kind |
| Physics.Rides | src/physics.cpp:437-469 | another movable collidable body, not moving up, whose bottom is not below this body's top and that overlaps one pixel above it; collected by Physics.GetRiding |
| Physics.GetRiding | src/physics.cpp:437-469 | exactly the movable collidable bodies resting on top of this one and not moving up |
| Physics.RiderSitsOnTop | src/physics.cpp:454-457 | a rider's bottom is this body's top, they overlap horizontally, and it is another movable body |
| Physics.Pushes | src/physics.cpp:471-504 | another movable collidable non-solid body overlapping this one now, unless this one is one-way and above it; collected by Physics.GetPushable |
| Physics.GetPushable | src/physics.cpp:471-504 | exactly the movable collidable non-solid bodies this one overlaps, subject to its own one-way test |
| Physics.PushableIgnoresOthersOneway | src/physics.cpp:491 | the pushable set reads the pusher's one-way flag, not the pushed body's |
| Physics.Steps | src/physics.cpp:336-434 | one axis of move_xy for a non-solid body: n pixel steps, each taking the sign out of the remainder, ending with that axis's speed and remainder zeroed before a solid; only this body's motion changes |
| Physics.StepsAcross | src/physics.cpp:336-434 | moving along one axis leaves the other axis's position, speed and remainder alone |
| Physics.StepsAlong | src/physics.cpp:336-434 | a non-solid body moves pixel by pixel toward the target; if it gets there the position plus remainder is kept, and if it stops, a solid is next to it and its speed and remainder on that axis are zero |
| Physics.MoveX | src/physics.cpp:318-327 | the horizontal move is at most X_MOVE_LIMIT (16) pixels either way |
| Physics.MoveY | src/physics.cpp:318-327 | the vertical move is at most Y_MOVE_LIMIT (24) pixels either way |
| Physics.MoveFree | src/physics.cpp:316-435 | move_xy of a non-solid body: the request joins the remainder, the clamped rounded moves are stepped horizontally then vertically, and only this body's motion changes; outcome in Physics.MoveFreeOutcome |
| Physics.MoveFreeOutcome | src/physics.cpp:316-435 | move_xy of a non-solid body moves within the limits and on each axis either stops against a solid or keeps speed and the exact position plus remainder |
| Physics.PushOne | src/physics.cpp:361-365 | a pushed body moves one pixel as move_xy does and gets its speed and remainder back; only that body changes |
| Physics.Pushed | src/physics.cpp:356-371 | the pushing loop of one pixel step, over the pushable bodies that are not riders, in store order; only motion changes |
| Physics.Carried | src/physics.cpp:373-381 | the carrying loop of one pixel step, over the riders, in store order; only motion changes |
| Physics.TransportSpec | src/physics.cpp:354-382 | what one pixel step of a solid does to the others: push first, then carry; only motion changes |
| Physics.PushedFrame | src/physics.cpp:356-371 | the pushing loop changes only the pushed bodies, and every body keeps its speed and remainder |
| Physics.CarriedFrame | src/physics.cpp:373-381 | the carrying loop changes only the riders |
| Physics.TransportFrame | src/physics.cpp:354-382 | the transport leaves alone the mover and every body neither pushed nor riding; a pushed body that does not ride keeps its speed and remainder |
| Physics.BlockingStops | src/physics.cpp:83-111 | an already blocked body has its speed and remainder zeroed on each blocked axis, and is left alone when neither axis is blocked |
| Physics.Blocking | src/physics.cpp:83-111 | the blocking part of check_collisions: on a solid in the way of the floored speed, move up to it and stop that axis, the vertical probe after the horizontal move; only this body's motion changes; outcome in Physics.BlockingStops |
| Physics.Previous | src/physics.cpp:40-46 | update_previous copies position and speed into the previous fields |
| Physics.Gravity | src/physics.cpp:114-118 | gravity is added to the vertical speed, which is clamped to 32 either way |
| Physics.UpdateFree | src/physics.cpp:23-38 | Physics::update of a non-solid body: an ignored body is kept; else the previous state is recorded and, with do_update, blocking, the free move by the speed and gravity follow; outcome in Physics.UpdateFreeOutcome |
| Physics.UpdateFreeOutcome | src/physics.cpp:23-38 | an update changes only this body, keeps its entity and mask, records the previous state and bounds the fall speed |
| Physics.Events | src/physics.cpp:55-81 | collision events, in store order, for exactly the touching bodies, each with this body's entity as owner |
| Physics.CollisionEvents | src/physics.cpp:48-51 | a body neither movable nor collidable raises no events |
| Physics.NoEventsBetweenSolidsOrImmovables | src/physics.cpp:57-67 | two solids, two immovable bodies, a body with itself or a non-collidable partner never touch |
| Physics.PhysicsWorld.constructor | src/physics.cpp:14-21 | the store's bodies, with no collision event yet |
| Physics.PhysicsWorld.MoveXY | src/physics.cpp:316-435 | only motion changes; a non-solid body ends as MoveFree says |
| Physics.PhysicsWorld.MoveAlong | src/physics.cpp:336-434 | one axis's loop; for a non-solid body, the pixel steps of Steps |
| Physics.PhysicsWorld.StepOnce | src/physics.cpp:340-402 | one turn: the remainder drops by one sign, then the body stops if blocked, else moves one pixel |
| Physics.PhysicsWorld.Transport | src/physics.cpp:354-382 | one pixel step of a solid pushes the pushable bodies that do not ride it, restoring their speed and remainder, then moves each rider by move_xy; with no solid rider the result is TransportSpec |
| Physics.PhysicsWorld.PushAll | src/physics.cpp:356-371 | the pushing loop in place; with non-solid pushables its result is Pushed |
| Physics.PhysicsWorld.Push | src/physics.cpp:361-365 | one push in place; on a non-solid body its result is PushOne |
| Physics.PhysicsWorld.CarryAll | src/physics.cpp:373-381 | the carrying loop in place; with non-solid riders its result is Carried |
| Physics.PhysicsWorld.Broadcast | src/physics.cpp:55-81 | the events of every touching body are appended and no body moves |
| Physics.PhysicsWorld.Block | src/physics.cpp:83-111 | the blocking step; for a non-solid body the result of Blocking |
| Physics.PhysicsWorld.CheckCollisions | src/physics.cpp:48-112 | check_collisions: events first, then blocking; nothing at all for a body neither movable nor collidable |
| Physics.PhysicsWorld.UpdatePrevious | src/physics.cpp:40-46 | only this body's previous fields change |
| Physics.PhysicsWorld.Update | src/physics.cpp:23-38 | an ignored body changes nothing; otherwise previous state recorded, and with do_update, events, movement and bounded fall speed; a non-solid body ends as UpdateFree says |
| Physics.PhysicsWorld.UpdateAll | src/physics.cpp:8-38 | the update hook over every component keeps the body count and only appends collision events |
| Hurtables.Initial | src/hurtable.hpp:47-49 | a new component has health and maximum both 100 and no pending hurt |
| Hurtables.ProcessSpec | src/hurtable.hpp:10-17 | process reports a pending hurt and counts the timer down, and changes nothing when none is pending |
| Hurtables.HurtSpec | src/hurtable.hpp:24-28 | health drops by the damage but not below 0, the hurt timer is set to 1, and the body is dead exactly when the damage reached its health |
| Hurtables.ResetSpec | src/hurtable.hpp:30-33 | health back to the maximum |
| Hurtables.AddHealthSpec | src/hurtable.hpp:35-38 | health grows by the amount but never above the maximum |
| Hurtables.SetMaxHealthSpec | src/hurtable.hpp:40-44 | the new maximum, with health cut down to it |
| Hurtables.HurtReportedOnce | src/hurtable.hpp:10-28 | after a hurt, process returns true exactly once |
| Hurtables.ProcessKeepsHealth | src/hurtable.hpp:10-22 | process never changes health, so it never changes is_dead |
| Hurtables.OperationsKeepBounds | src/hurtable.hpp:24-44 | 0 <= health <= max_health survives hurt, add_health and set_max_health with non-negative arguments, reset and process |
| Hurtables.Hurtable.constructor | src/hurtable.hpp:47-49 | the initial state, which is bounded |
| Hurtables.Hurtable.Process | src/hurtable.hpp:10-17 | updates the fields as ProcessSpec says and returns its flag |
| Hurtables.Hurtable.Hurt | src/hurtable.hpp:24-28 | updates the fields as HurtSpec says |
| Hurtables.Hurtable.Reset | src/hurtable.hpp:30-33 | updates the fields as ResetSpec says |
| Hurtables.Hurtable.AddHealth | src/hurtable.hpp:35-38 | updates the fields as AddHealthSpec says |
| Hurtables.Hurtable.SetMaxHealth | src/hurtable.hpp:40-44 | updates the fields as SetMaxHealthSpec says |
| Input.ActiveIsPressedOrDown | src/input.hpp:22-35 | the bool conversion holds exactly for PRESSED or DOWN, so not for the default UP |
| Input.DiscreteStep | src/input.hpp:55-69 | the discrete transition of one state for one key: UP with the key held becomes PRESSED, anything else is kept; properties in Input.DiscreteNeverDemotes |
| Input.DiscreteStepsCombine | src/input.hpp:55-90 | the repeated update_state calls for one state (one per key) are one step on whether any of the keys is held |
| Input.DiscreteNeverDemotes | src/input.hpp:55-69 | update_discrete only turns an UP state with a held key into PRESSED and never demotes |
| Input.ContinuousStep | src/input.hpp:122-140 | the continuous transition: held from UP gives PRESSED, held otherwise DOWN, not held UP; properties in Input.ContinuousStepFollowsKey |
| Input.ContinuousStepFollowsKey | src/input.hpp:122-140 | a state is active exactly while its key is held, PRESSED only on the first held update and DOWN afterwards |
| Input.HeldRunPressedOnce | src/input.hpp:122-140 | while held continuously the state is PRESSED for exactly one update, the first one from UP |
| Input.WheelDirection | src/input.hpp:95-101 | the wheel moves down below -1e-8, up above 1e-8, and is still otherwise |
| Input.WheelDiscrete | src/input.hpp:95-113 | a moving wheel sets its side PRESSED and the other UP; a still wheel only demotes DOWN sides to UP |
| Input.WheelContinuous | src/input.hpp:175-190 | a moving wheel holds its side DOWN and the other UP; a still wheel leaves both UP |
| Input.ButtonsFollowKeyTransitions | src/input.hpp:142-160 | the mouse buttons follow the same continuous transitions as keys |
| Input.UpdateDiscreteSpec | src/input.hpp:53-114 | update_discrete: each state stepped once per bound key in source order, the buttons likewise and the wheel by its discrete rule; properties in Input.DiscretePassPerState |
| Input.DiscretePassPerState | src/input.hpp:53-93 | update_discrete steps each state on its own key bindings |
| Input.DiscretePassKeepsActive | src/input.hpp:53-93 | the discrete pass leaves every active state as it was |
| Input.UpdateContinuousSpec | src/input.hpp:162-191 | update_continuous: each state stepped on whether any bound key is held, the buttons likewise and the wheel by its continuous rule; properties in Input.ContinuousPassFollowsHeld |
| Input.ContinuousPassFollowsHeld | src/input.hpp:162-173 | after update_continuous each state is active exactly while one of its bindings is held, and PRESSED only when it was UP |
| Input.Input.constructor | src/input.hpp:13-51 | every state starts UP |
| Input.Input.UpdateDiscrete | src/input.hpp:53-114 | the states change as the discrete pass says |
| Input.Input.UpdateContinuous | src/input.hpp:162-191 | the states change as the continuous pass says |
| Sprites.ToInt8 | src/sprite.hpp:97 | a store into the int8_t frame index keeps the value modulo 256 |
| Sprites.Width | src/sprite.cpp:235-241 | the frame width, falling back to the texture width when it is not positive |
| Sprites.Height | src/sprite.cpp:243-249 | the frame height, falling back to the texture height when it is not positive |
| Sprites.ResetAnimationSpec | src/sprite.cpp:284-288 | the index goes to the tag's start frame and the timer to 0; nothing else changes |
| Sprites.SetFrameSpec | src/sprite.cpp:290-299 | the frame clamped into 0..frame_count-1 (0 when there are no frames), with the timer zeroed |
| Sprites.FrameDuration | src/sprite.cpp:352-353 | the stored duration of the frame, or 100 ms when none is stored |
| Sprites.ShouldAdvanceSpec | src/sprite.cpp:322-366 | the clock is recorded, and an advance happens only on a multi-frame tag with an index inside the frames |
| Sprites.OneFrameTagPins | src/sprite.cpp:328-333 | a tag whose start is its end pins the index to the start, zeroes the timer and never advances |
| Sprites.TimerAccumulates | src/sprite.cpp:352-365 | the timer accumulates the elapsed time; it advances exactly when the duration is reached, then loses one duration or is zeroed if still beyond it |
| Sprites.TimerStaysBelowDuration | src/sprite.cpp:352-365 | a timer below the frame duration stays below it |
| Sprites.AnimateSpec | src/sprite.cpp:368-382 | a sprite with at most one frame is unchanged, and the tag is never touched |
| Sprites.AnimateStaysInTag | src/sprite.cpp:373-381 | an advance on a tag within the frames keeps the index within the tag |
| Sprites.AnimateWrapsAround | src/sprite.cpp:375-380 | stepping past the tag's end wraps to its start, stepping back from its start wraps to its end, and otherwise the index moves by one |
| Sprites.SetTagSpec | src/sprite.cpp:384-413 | set_tag: a known other tag switches and resets, the empty name resets and switches to the default tag, anything else changes nothing; cases in Sprites.SetTagCases |
| Sprites.SetTagCases | src/sprite.cpp:384-413 | an unknown name or the current tag changes nothing; another tag switches and resets; the empty name resets with the old tag's start and then switches to the default tag |
| Sprites.EmptyTagKeepsOldStart | src/sprite.cpp:405-411 | after set_tag("") the index is the old tag's start, which need not be the default tag's |
| Sprites.Sprite.constructor | src/sprite.hpp:93-104 | the declared defaults: no tags, no frames, and both `default_tag` and `tag` at AnimationTag's initialisers { 0, 1 } |
| Sprites.Sprite.GetWidth | src/sprite.cpp:235-241 | the width of the sprite's state |
| Sprites.Sprite.GetHeight | src/sprite.cpp:243-249 | the height of the sprite's state |
| Sprites.Sprite.ResetAnimation | src/sprite.cpp:284-288 | changes the fields as ResetAnimationSpec says |
| Sprites.Sprite.SetFrame | src/sprite.cpp:290-299 | changes the fields as SetFrameSpec says |
| Sprites.Sprite.SetFrameRelative | src/sprite.cpp:301-304 | set_frame of the frame plus the tag's start |
| Sprites.Sprite.ShouldAdvanceFrame | src/sprite.cpp:322-366 | changes the fields and answers as ShouldAdvanceSpec says |
| Sprites.Sprite.Animate | src/sprite.cpp:368-382 | changes the fields as AnimateSpec says |
| Sprites.Sprite.SetTag | src/sprite.cpp:384-413 | changes the fields as SetTagSpec says |
| CachedResources.UseSpec | src/cached_resource.hpp:24-28 | use returns the stored data and counts one more use; other paths are untouched |
| CachedResources.AddSpec | src/cached_resource.hpp:29-34 | add replaces any entry for the path by the data with one use; other paths are untouched |
| CachedResources.FreeSpec | src/cached_resource.hpp:36-44 | free ignores an absent path, otherwise counts one use less and erases the entry at zero; other paths are untouched |
| CachedResources.OperationsKeepAllInUse | src/cached_resource.hpp:24-44 | every stored entry keeps a positive use count |
| CachedResources.IsUsedIffStored | src/cached_resource.hpp:16-22 | with that invariant, is_used is exactly membership |
| CachedResources.UseTimesCounts | src/cached_resource.hpp:24-28 | k uses add k to the count |
| CachedResources.FreeTimesErases | src/cached_resource.hpp:36-44 | as many frees as uses erase the entry |
| CachedResources.FreeTimesAbsent | src/cached_resource.hpp:36-44 | frees of an absent path change nothing |
| CachedResources.AddUseFreeBalanced | src/cached_resource.hpp:24-44 | one add, k uses and k + 1 frees leave the path absent and every other path untouched |
| CachedResources.CachedResource.constructor | src/cached_resource.hpp:15 | the cache starts empty |
| CachedResources.CachedResource.Use | src/cached_resource.hpp:24-28 | changes the cache and answers as UseSpec says |
| CachedResources.CachedResource.Add | src/cached_resource.hpp:29-34 | changes the cache as AddSpec says and returns the data |
| CachedResources.CachedResource.Free | src/cached_resource.hpp:36-44 | changes the cache as FreeSpec says |
| Ldtk.GetUntyped | src/external/ldtk.hpp:45-50 | the value under the key, or JSON null when the key is absent |
| Ldtk.GetStackOptional | src/external/ldtk.hpp:73-80 | empty for an absent or null key; otherwise the conversion of the value, failing when it fails |
| Ldtk.Truncate | src/level_loader.cpp:349-350 | a float-to-int conversion truncates toward zero |
| Ldtk.IntOf | src/external/ldtk.hpp:1974-1977 | the integer get<int64_t>() reads from a number: an integer as it is, a float cast toward zero |
| Ldtk.GetInt | src/external/ldtk.hpp:1974-1977 | j.at(key).get<int64_t>(): the number under the key, a float cast toward zero; a missing key, a non-number, or a float whose cast does not fit in 64 bits is an error |
| Ldtk.GetString | src/external/ldtk.hpp:2441-2446 | j.at(key).get<std::string>(): the string under the key, an error when the key is missing or holds another type |
| Ldtk.EntityReferenceFromJson | src/external/ldtk.hpp:2441-2446 | succeeds exactly when all four identifiers are strings, and reads them |
| Ldtk.TilesetRectangleFromJson | src/external/ldtk.hpp:1972-1978 | succeeds exactly when all five keys hold numbers that convert to int64, and reads each field from its key, floats cast toward zero |
| Ldtk.TilesetRectangleToJson | src/external/ldtk.hpp:1980-1987 | an object with exactly the five keys, which from_json reads back as the same rectangle |
| Ldtk.GridPointFromJson | src/external/ldtk.hpp:2456-2459 | succeeds exactly when cx and cy hold numbers that convert to int64, and reads them, floats cast toward zero |
| Ldtk.GridPointToJson | src/external/ldtk.hpp:2461-2465 | an object with exactly cx and cy, which from_json reads back as the same point |
| Ldtk.IntGridValueInstanceFromJson | src/external/ldtk.hpp:2467-2470 | succeeds exactly when coordId and v hold numbers that convert to int64, and reads them, floats cast toward zero |
| Ldtk.IntGridValueInstanceToJson | src/external/ldtk.hpp:2472-2476 | an object with exactly coordId and v, which from_json reads back as the same value |
| Ldtk.FromJsonIgnoresOtherKeys | src/external/ldtk.hpp:1972-1978 | from_json reads only its own keys, so extra keys do not matter |
| Ldtk.GridPointFloatsTruncate | src/external/ldtk.hpp:2456-2459 | float coordinates 1.5 and -2.75 read as 1 and -2, and a boolean coordinate is a type error |
| LdtkEnums.WhenToJson | src/external/ldtk.hpp:2836-2843 | to_json writes one of the When names, and from_json reads it back as the same enumerator |
| LdtkEnums.WhenFromJson | src/external/ldtk.hpp:2828-2833 | from_json accepts exactly the listed names, each as the enumerator whose name it is, and throws the schema error otherwise |
| LdtkEnums.WhenNamesRoundTrip | src/external/ldtk.hpp:2828-2843 | every accepted name is written back unchanged |
| LdtkEnums.AllowedRefsToJson | src/external/ldtk.hpp:2854-2861 | to_json writes one of the AllowedRefs names, and from_json reads it back as the same enumerator |
| LdtkEnums.AllowedRefsFromJson | src/external/ldtk.hpp:2846-2851 | from_json accepts exactly the listed names, each as the enumerator whose name it is, and throws the schema error otherwise |
| LdtkEnums.AllowedRefsNamesRoundTrip | src/external/ldtk.hpp:2846-2861 | every accepted name is written back unchanged |
| LdtkEnums.EditorDisplayModeToJson | src/external/ldtk.hpp:2883-2901 | to_json writes one of the EditorDisplayMode names, and from_json reads it back as the same enumerator |
| LdtkEnums.EditorDisplayModeFromJson | src/external/ldtk.hpp:2864-2880 | from_json accepts exactly the listed names, each as the enumerator whose name it is, and throws the schema error otherwise |
| LdtkEnums.EditorDisplayModeNamesRoundTrip | src/external/ldtk.hpp:2864-2901 | every accepted name is written back unchanged |
| LdtkEnums.EditorDisplayPosToJson | src/external/ldtk.hpp:2911-2917 | to_json writes one of the EditorDisplayPos names, and from_json reads it back as the same enumerator |
| LdtkEnums.EditorDisplayPosFromJson | src/external/ldtk.hpp:2904-2908 | from_json accepts exactly the listed names, each as the enumerator whose name it is, and throws the schema error otherwise |
| LdtkEnums.EditorDisplayPosNamesRoundTrip | src/external/ldtk.hpp:2904-2917 | every accepted name is written back unchanged |
| LdtkEnums.EditorLinkStyleToJson | src/external/ldtk.hpp:2929-2937 | to_json writes one of the EditorLinkStyle names, and from_json reads it back as the same enumerator |
| LdtkEnums.EditorLinkStyleFromJson | src/external/ldtk.hpp:2920-2926 | from_json accepts exactly the listed names, each as the enumerator whose name it is, and throws the schema error otherwise |
| LdtkEnums.EditorLinkStyleNamesRoundTrip | src/external/ldtk.hpp:2920-2937 | every accepted name is written back unchanged |
| LdtkEnums.TextLanguageModeToJson | src/external/ldtk.hpp:2954-2967 | to_json writes one of the TextLanguageMode names, and from_json reads it back as the same enumerator |
| LdtkEnums.TextLanguageModeFromJson | src/external/ldtk.hpp:2940-2951 | from_json accepts exactly the listed names, each as the enumerator whose name it is, and throws the schema error otherwise |
| LdtkEnums.TextLanguageModeNamesRoundTrip | src/external/ldtk.hpp:2940-2967 | every accepted name is written back unchanged |
| LdtkEnums.LimitBehaviorToJson | src/external/ldtk.hpp:2977-2983 | to_json writes one of the LimitBehavior names, and from_json reads it back as the same enumerator |
| LdtkEnums.LimitBehaviorFromJson | src/external/ldtk.hpp:2970-2974 | from_json accepts exactly the listed names, each as the enumerator whose name it is, and throws the schema error otherwise |
| LdtkEnums.LimitBehaviorNamesRoundTrip | src/external/ldtk.hpp:2970-2983 | every accepted name is written back unchanged |
| LdtkEnums.LimitScopeToJson | src/external/ldtk.hpp:2993-2999 | to_json writes one of the LimitScope names, and from_json reads it back as the same enumerator |
| LdtkEnums.LimitScopeFromJson | src/external/ldtk.hpp:2986-2990 | from_json accepts exactly the listed names, each as the enumerator whose name it is, and throws the schema error otherwise |
| LdtkEnums.LimitScopeNamesRoundTrip | src/external/ldtk.hpp:2986-2999 | every accepted name is written back unchanged |
| LdtkEnums.RenderModeToJson | src/external/ldtk.hpp:3010-3017 | to_json writes one of the RenderMode names, and from_json reads it back as the same enumerator |
| LdtkEnums.RenderModeFromJson | src/external/ldtk.hpp:3002-3007 | from_json accepts exactly the listed names, each as the enumerator whose name it is, and throws the schema error otherwise |
| LdtkEnums.RenderModeNamesRoundTrip | src/external/ldtk.hpp:3002-3017 | every accepted name is written back unchanged |
| LdtkEnums.TileRenderModeToJson | src/external/ldtk.hpp:3031-3041 | to_json writes one of the TileRenderMode names, and from_json reads it back as the same enumerator |
| LdtkEnums.TileRenderModeFromJson | src/external/ldtk.hpp:3020-3028 | from_json accepts exactly the listed names, each as the enumerator whose name it is, and throws the schema error otherwise |
| LdtkEnums.TileRenderModeNamesRoundTrip | src/external/ldtk.hpp:3020-3041 | every accepted name is written back unchanged |
| LdtkEnums.CheckerToJson | src/external/ldtk.hpp:3051-3057 | to_json writes one of the Checker names, and from_json reads it back as the same enumerator |
| LdtkEnums.CheckerFromJson | src/external/ldtk.hpp:3044-3048 | from_json accepts exactly the listed names, each as the enumerator whose name it is, and throws the schema error otherwise |
| LdtkEnums.CheckerNamesRoundTrip | src/external/ldtk.hpp:3044-3057 | every accepted name is written back unchanged |
| LdtkEnums.TileModeToJson | src/external/ldtk.hpp:3066-3071 | to_json writes one of the TileMode names, and from_json reads it back as the same enumerator |
| LdtkEnums.TileModeFromJson | src/external/ldtk.hpp:3060-3063 | from_json accepts exactly the listed names, each as the enumerator whose name it is, and throws the schema error otherwise |
| LdtkEnums.TileModeNamesRoundTrip | src/external/ldtk.hpp:3060-3071 | every accepted name is written back unchanged |
| LdtkEnums.LayerTypeToJson | src/external/ldtk.hpp:3082-3089 | to_json writes one of the LayerType names, and from_json reads it back as the same enumerator |
| LdtkEnums.LayerTypeFromJson | src/external/ldtk.hpp:3074-3079 | from_json accepts exactly the listed names, each as the enumerator whose name it is, and throws the schema error otherwise |
| LdtkEnums.LayerTypeNamesRoundTrip | src/external/ldtk.hpp:3074-3089 | every accepted name is written back unchanged |
| LdtkEnums.EmbedAtlasToJson | src/external/ldtk.hpp:3097-3101 | to_json writes one of the EmbedAtlas names, and from_json reads it back as the same enumerator |
| LdtkEnums.EmbedAtlasFromJson | src/external/ldtk.hpp:3092-3094 | from_json accepts exactly the listed names, each as the enumerator whose name it is, and throws the schema error otherwise |
| LdtkEnums.EmbedAtlasNamesRoundTrip | src/external/ldtk.hpp:3092-3101 | every accepted name is written back unchanged |
| LdtkEnums.FlagToJson | src/external/ldtk.hpp:3115-3125 | to_json writes one of the Flag names, and from_json reads it back as the same enumerator |
| LdtkEnums.FlagFromJson | src/external/ldtk.hpp:3104-3112 | from_json accepts exactly the listed names, each as the enumerator whose name it is, and throws the schema error otherwise |
| LdtkEnums.FlagNamesRoundTrip | src/external/ldtk.hpp:3104-3125 | every accepted name is written back unchanged |
| LdtkEnums.BgPosToJson | src/external/ldtk.hpp:3137-3145 | to_json writes one of the BgPos names, and from_json reads it back as the same enumerator |
| LdtkEnums.BgPosFromJson | src/external/ldtk.hpp:3128-3134 | from_json accepts exactly the listed names, each as the enumerator whose name it is, and throws the schema error otherwise |
| LdtkEnums.BgPosNamesRoundTrip | src/external/ldtk.hpp:3128-3145 | every accepted name is written back unchanged |
| LdtkEnums.WorldLayoutToJson | src/external/ldtk.hpp:3156-3163 | to_json writes one of the WorldLayout names, and from_json reads it back as the same enumerator |
| LdtkEnums.WorldLayoutFromJson | src/external/ldtk.hpp:3148-3153 | from_json accepts exactly the listed names, each as the enumerator whose name it is, and throws the schema error otherwise |
| LdtkEnums.WorldLayoutNamesRoundTrip | src/external/ldtk.hpp:3148-3163 | every accepted name is written back unchanged |
| LdtkEnums.IdentifierStyleToJson | src/external/ldtk.hpp:3174-3181 | to_json writes one of the IdentifierStyle names, and from_json reads it back as the same enumerator |
| LdtkEnums.IdentifierStyleFromJson | src/external/ldtk.hpp:3166-3171 | from_json accepts exactly the listed names, each as the enumerator whose name it is, and throws the schema error otherwise |
| LdtkEnums.IdentifierStyleNamesRoundTrip | src/external/ldtk.hpp:3166-3181 | every accepted name is written back unchanged |
| LdtkEnums.ImageExportModeToJson | src/external/ldtk.hpp:3192-3199 | to_json writes one of the ImageExportMode names, and from_json reads it back as the same enumerator |
| LdtkEnums.ImageExportModeFromJson | src/external/ldtk.hpp:3184-3189 | from_json accepts exactly the listed names, each as the enumerator whose name it is, and throws the schema error otherwise |
| LdtkEnums.ImageExportModeNamesRoundTrip | src/external/ldtk.hpp:3184-3199 | every accepted name is written back unchanged |
| LevelDefinitions.ToInt32 | src/level_definitions.hpp:16-32 | narrowing into an int32_t keeps the value modulo 2^32 and leaves values in range alone |
| LevelDefinitions.DefaultEntityRef | src/level_definitions.hpp:77-82 | a default EntityRef refers to INVALID_ENTITY and the empty level id |
| LevelDefinitions.RefTo | src/level_definitions.hpp:84-87 | an EntityRef built from a level id has that id and no game entity yet |
| LevelDefinitions.GetField | src/level_definitions.hpp:119-131 | none for an absent name; the value when the name holds the requested alternative; never a value of another alternative |
| LevelDefinitions.MismatchIsNone | src/level_definitions.hpp:121-131 | a type mismatch asserts, and in a release build reads as a missing field |
| LevelDefinitions.GetEntityField | src/level_definitions.hpp:110-118 | for a game entity: the reference's game entity id exactly when the name holds an EntityRef |
| LevelDefinitions.TryReadField | src/level_definitions.hpp:146-151 | the out-value takes the field when the lookup finds one and is kept otherwise |
| LevelDefinitions.ReadField | src/level_definitions.hpp:134-144 | assigns as try_read_field does, and asserts exactly when the lookup is empty |
| LevelDefinitions.TryReadEntityField | src/level_definitions.hpp:110-151 | try_read_field for a game entity keeps the out-value unless the name holds an EntityRef |
| LevelDefinitions.ReadEntityField | src/level_definitions.hpp:110-144 | read_field for a game entity asserts exactly when the name holds no EntityRef |
| LevelDefinitions.GetFieldAfterWrite | src/level_definitions.hpp:119-131 | a field just written reads back, and writing one name leaves every other lookup alone |
| LevelLoading.FirstWithIid | src/level_loader.cpp:131-135 | the index of the first level with the iid, or the count when there is none |
| LevelLoading.LevelIdentifier | src/level_loader.cpp:127-139 | the empty name when no project is loaded or no level has the iid |
| LevelLoading.LevelIdentifierFirstMatch | src/level_loader.cpp:131-135 | with a project loaded, the identifier is that of the first level carrying the iid |
| LevelLoading.FirstNamed | src/level_loader.cpp:145-147 | the index of the first level with the name, or the count when there is none |
| LevelLoading.GetLevel | src/level_loader.cpp:141-152 | the null level without a cache; any other result is a cached level with that name, and a name that is present is found |
| LevelLoading.DirectionFromString | src/level_loader.cpp:154-176 | each of the eight codes maps to the direction it names; any other string falls back to North |
| LevelLoading.DirectionRoundTrip | src/level_loader.cpp:154-171 | every direction has a code, and reading that code gives the direction back |
| LevelLoading.LayerDepth | src/level_loader.cpp:199-210 | -10 for a Front layer, 10 for a Back layer not also starting with Front, 0 for Default and for every other name |
| LevelLoading.HexRun | src/level_loader.cpp:257-259 | the length of the longest prefix of hexadecimal digits, as std::stoi reads it |
| LevelLoading.StoiHex | src/level_loader.cpp:257-259 | std::stoi in base 16: leading spaces, a sign, an optional 0x, then the longest run of hex digits, and invalid_argument without one; properties in LevelLoading.StoiHexPair |
| LevelLoading.Channel | src/level_loader.cpp:257-259 | one colour channel: substr(pos, 2), read in base 16 and narrowed to a byte; properties in LevelLoading.ChannelOfPair |
| LevelLoading.Substr2 | src/level_loader.cpp:257-259 | substr(pos, 2) fails exactly when pos is past the end, and otherwise yields at most two characters from pos |
| LevelLoading.ColorFromHex | src/level_loader.cpp:255-262 | a decoded colour is always opaque, and an empty string throws out_of_range |
| LevelLoading.StoiHexPair | src/level_loader.cpp:257-259 | reading two hexadecimal digits written for a byte gives that byte |
| LevelLoading.ChannelOfPair | src/level_loader.cpp:257-259 | a channel read at a position holding a byte's two digits is that byte |
| LevelLoading.ColorFromHexRoundTrip | src/level_loader.cpp:255-262 | decoding "#rrggbb" written from an opaque colour gives that colour back |
| LevelLoading.LoadTile | src/level_loader.cpp:243-253 | the tile takes the rectangle's tileset, source position and size, narrowed to int32; position and depth are 0 as their initialisers say, and the id, which `Level::Tile t;` leaves indeterminate, is 0 |
| LevelLoading.ElementSet | src/level_loader.cpp:79-82 | the set holds exactly the listed tile ids |
| LevelLoading.EnumTilesOf | src/level_loader.cpp:75-83 | the enum-tag loop: each tag's tile ids joined into its value's entry, in order; contents in LevelLoading.EnumTilesContents |
| LevelLoading.EnumTilesContents | src/level_loader.cpp:75-83 | an enum value has an entry exactly when some tag names it, and the entry is the union of the tile ids of every such tag |
| LevelLoading.TilesetsOf | src/level_loader.cpp:62-89 | the tileset loop: each definition with a path stored under its uid, in order; contents in LevelLoading.TilesetsContents |
| LevelLoading.TilesetsContents | src/level_loader.cpp:62-89 | a uid is present exactly when a definition with a path has it; its tileset carries that uid and is built from such a definition |
| LevelLoading.LoadTilesets | src/level_loader.cpp:62-89 | the loop builds the tileset map of the definitions in order, later definitions replacing earlier ones |
| LevelLoading.LoadProjectSpec | src/level_loader.cpp:91-115 | a missing file keeps the cache; otherwise it is dropped, parse and schema errors throw, the project is loaded exactly when the file parsed with levels, and tilesets are built only then |
| LevelLoading.LoadedTilesetsKeyed | src/level_loader.cpp:85 | after a load every cached tileset is stored under its own id |
| LevelLoading.ProjectCache.constructor | src/level_loader.cpp:59 | the shared cache starts empty |
| LevelLoading.ProjectCache.LoadProject | src/level_loader.cpp:91-120 | the cache and the exception are those of the load_project specification |
| LevelLoading.Resolve | src/level_loader.cpp:182-185 | one resolved neighbour per listed one, with its direction decoded and its level's identifier looked up |
| LevelLoading.NeighboursOf | src/level_loader.cpp:187-193 | the neighbour loop: each direction inserted once, and a repeated direction rejects the list; properties in LevelLoading.NeighboursAccepted |
| LevelLoading.LoadNeighboursSpec | src/level_loader.cpp:178-197 | load_neighbours: the map of the resolved neighbours, or the empty map when a direction repeats; properties in LevelLoading.NeighboursDuplicate |
| LevelLoading.NeighboursContents | src/level_loader.cpp:182-194 | when every direction is new, the map holds exactly the listed directions, each with its neighbour's identifier |
| LevelLoading.NeighboursAccepted | src/level_loader.cpp:187-193 | the map is built exactly when no direction repeats |
| LevelLoading.NeighboursDistinct | src/level_loader.cpp:178-197 | with distinct directions, every listed neighbour is in the map under its direction |
| LevelLoading.NeighboursOnlyListed | src/level_loader.cpp:178-197 | with distinct directions, a direction no neighbour has is absent |
| LevelLoading.NeighboursDuplicate | src/level_loader.cpp:189-193 | a repeated direction makes load_neighbours return the empty map |
| LevelLoading.RepeatRejects | src/level_loader.cpp:187-193 | a direction already in the map rejects the whole list |
| LevelLoading.LoadNeighbours | src/level_loader.cpp:178-197 | the loop returns the map of the load_neighbours specification |
| LevelLoading.FirstMalformed | src/level_loader.cpp:221-224 | the index of the first tile whose px or src has fewer than two entries, or the count |
| LevelLoading.LoadTilesSpec | src/level_loader.cpp:212-241 | the tiles are the well-formed prefix of the grid tiles, each with its id, position and source narrowed to int32, the layer's depth, the grid size and the tileset uid or 0 |
| LevelLoading.AllTilesLoaded | src/level_loader.cpp:221-238 | when every grid tile is well formed, each yields a tile |
| LevelLoading.LoadTiles | src/level_loader.cpp:212-241 | the loop returns the tiles of the load_tiles specification |
| LevelLoading.KindOfType | src/level_loader.cpp:276-313 | every LocalEnum type is read as a string field |
| LevelLoading.ShapeFits | src/level_loader.cpp:276-313 | the shape test each field type asserts: an object for Tile, a string for String, LocalEnum and Color, an integer for Int, a boolean for Bool, any number for Float; EntityRef tests nothing |
| LevelLoading.FieldStepOf | src/level_loader.cpp:268-328 | a null value is skipped; an unknown type returns the fields read so far; a value of the wrong shape returns the empty map; a stored field carries the instance's name and the alternative its type selects; only tile, colour and reference conversions throw |
| LevelLoading.FieldsFrom | src/level_loader.cpp:264-332 | the field loop over its steps: skip, store, return the empty map, return what was read, or throw; properties in LevelLoading.FieldsLastWriteWins |
| LevelLoading.LoadFieldsSpec | src/level_loader.cpp:264-332 | load_fields: the loop from the empty map over one step per instance; properties in LevelLoading.FieldsStop |
| LevelLoading.FieldsUntouched | src/level_loader.cpp:264-332 | when every instance is stored, a name no instance writes keeps its earlier value or stays absent |
| LevelLoading.FieldsLastWriteWins | src/level_loader.cpp:264-332 | when every instance is stored, a name holds the field its last instance wrote |
| LevelLoading.FieldsStop | src/level_loader.cpp:276-319 | after stored instances, a shape mismatch yields the empty map and a failed conversion throws its error |
| LevelLoading.LoadFields | src/level_loader.cpp:264-332 | the loop returns the fields or the exception of the load_fields specification |
| LevelLoading.StepsOf | src/level_loader.cpp:264-332 | each field instance contributes exactly one step of the loop, in order |
| LevelLoading.EntityPosition | src/level_loader.cpp:349-350 | the position minus the pivot share of the size, each coordinate truncated toward zero and narrowed to int32 |
| LevelLoading.EntityOf | src/level_loader.cpp:346-361 | the entity has the instance's iid and name, its pivot-adjusted position, its size narrowed to int32, a tile exactly when the instance has one (placed at the entity's position), and its fields plus Identifier set to the iid |
| LevelLoading.EntitiesFrom | src/level_loader.cpp:338-366 | the entity loop: a malformed instance returns the empty map, a field error throws, else the entity is stored under its iid; properties in LevelLoading.EntitiesFromKeyed |
| LevelLoading.LoadEntitiesSpec | src/level_loader.cpp:334-367 | load_entities: the entity loop from the empty map over the layer's instances |
| LevelLoading.EntitiesFromKeyed | src/level_loader.cpp:338-366 | every entity is stored under its own id |
| LevelLoading.EntitiesFromKeys | src/level_loader.cpp:338-366 | every key is one already present or the iid of some instance |
| LevelLoading.LoadEntities | src/level_loader.cpp:334-367 | the loop returns the entities or the exception of the load_entities specification |
| LevelLoading.LayerStepOf | src/level_loader.cpp:398-412 | a layer only appends tiles and adds entities without replacing any already loaded, keeps every other part of the level, and stops quietly only for grid tiles without tilesets |
| LevelLoading.LayersOnlyAdd | src/level_loader.cpp:395-412 | across all layers tiles are only appended, earlier entities keep their values and nothing else of the level changes |
| LevelLoading.LayersKeyed | src/level_loader.cpp:407-411 | entities stay stored under their own ids across the layers |
| LevelLoading.LayersFrom | src/level_loader.cpp:395-412 | the layer loop: each layer steps the level until one stops it; properties in LevelLoading.LayersOnlyAdd |
| LevelLoading.LoadSpec | src/level_loader.cpp:374-379 | a loaded project is kept, otherwise it is loaded from the file, and without a loaded project the level is left as it was |
| LevelLoading.LoadKeepsEntitiesKeyed | src/level_loader.cpp:374-413 | a load keeps every entity stored under its own id |
| LevelLoading.LoadFindsLevel | src/level_loader.cpp:381-393 | with the level present and its fields readable, the loader takes its name, its fields and the cached tilesets |
| LevelLoading.LoadLevelSpec | src/level_loader.cpp:381-413 | load_level: read the cached level of that name |
| LevelLoading.ReadLevelSpec | src/level_loader.cpp:382-413 | read a cached level: place it, then fill it |
| LevelLoading.PlaceSpec | src/level_loader.cpp:382-389 | iid, name, world position, size and neighbours taken from the level |
| LevelLoading.FillSpec | src/level_loader.cpp:390-412 | the level's fields, or their error; then the cached tilesets, no tiles and no entities before the layers run |
| LevelLoading.LayersSpec | src/level_loader.cpp:395-412 | no layer list leaves the level as it is; otherwise the layer loop |
| LevelLoading.LevelLoader.constructor | src/level_loader.hpp:17-29 | a default loader holds the initial, empty level |
| LevelLoading.LevelLoader.Load | src/level_loader.cpp:374-413 | the new level, the exception and the project cache are those of the load specification |
| LevelLoading.LevelLoader.LoadLevel | src/level_loader.cpp:381-413 | with a project loaded, the level is read from the named cached level |
| LevelLoading.LevelLoader.ReadLevel | src/level_loader.cpp:382-413 | the level is placed and then filled from the given cached level |
| LevelLoading.LevelLoader.Place | src/level_loader.cpp:382-389 | iid, name, world position, size and neighbours come from the cached level; no other field changes |
| LevelLoading.LevelLoader.Fill | src/level_loader.cpp:390-412 | the fields, tilesets, tiles and entities are those of the fill specification |
| LevelLoading.LevelLoader.LoadLayers | src/level_loader.cpp:395-412 | the loop over layers gives the state and exception of the layer specification |
| LevelLoading.NewLevelLoader | src/level_loader.cpp:369-372 | a loader results exactly when loading throws nothing, and holds the loaded level; the project cache is updated either way |
| Levels.ConstructArgument | src/level.hpp:75-95 | the first constructor form the component offers picks the argument; a tile form fails only for an entity without a tile |
| Levels.RegisterSpec | src/level.hpp:19-22 | the name maps to the new constructor, replacing any earlier one, and every other name keeps its entry |
| Levels.LevelRegistry.constructor | src/level.hpp:24 | the registry starts empty |
| Levels.LevelRegistry.RegisterEntity | src/level.hpp:19-22 | the registry becomes that of the register_entity specification |
| Levels.RegisterLevelEntity | src/level.hpp:69-73 | a LevelEntity registers construct for its component under the component's name |
| Levels.StoreField | src/level.hpp:44-48 | the field is stored under the entity and name, and only that entity is added to the store's keys |
| Levels.LoadField | src/level.hpp:50-56 | the out-value becomes the stored field when entity and name are present, and is kept otherwise |
| Levels.StoreThenLoad | src/level.hpp:44-56 | a stored field reads back |
| Levels.StoreOnlyOwnKey | src/level.hpp:44-56 | storing a field leaves every other entity and name reading as before |
| Levels.FieldStore.constructor | src/level.hpp:43 | the static store starts empty |
| Levels.FieldStore.Store | src/level.hpp:44-48 | the store becomes that of the store specification |
| Levels.FieldStore.Load | src/level.hpp:50-56 | load yields the load specification's field and changes nothing |
| Levels.Allocated | src/manager.cpp:47-57 | k allocations after an identifier hand out the identifier plus k while no wrap occurs |
| Levels.AllocatedStep | src/manager.cpp:47-57 | allocating k identifiers and then one more is allocating k + 1 |
| Levels.World.constructor | src/level.cpp:27 | the recorded world starts with no calls, the given identifier and the given player body |
| Levels.World.CreateEntity | src/level.cpp:58 | create_entity hands out the next identifier and remembers it |
| Levels.World.Record | src/level.cpp:40 | a call to the manager is appended to the recorded ones |
| Levels.SolidTiles | src/level.cpp:35-41 | the solid tiles are at most the tiles |
| Levels.SolidTilesContents | src/level.cpp:35-41 | a tile is kept exactly when it is in the level and its tileset tags its id Solid |
| Levels.BlockCallsAppend | src/level.cpp:35-41 | one more solid tile adds one block on the next allocated entity |
| Levels.BlockCalls | src/level.cpp:35-41 | the k-th solid tile gets a block on the k-th identifier allocated after the previous one; properties in Levels.BlockCallsSolid |
| Levels.WithDefaultsContents | src/level.cpp:37 | looking up tilesets with operator[] keeps every existing tileset and inserts an empty one for each tile's missing tileset |
| Levels.WithDefaults | src/level.cpp:37 | operator[] over the tiles: a missing tileset id gets an empty tileset; contents in Levels.WithDefaultsContents |
| Levels.SolidUnderDefaults | src/level.cpp:37-39 | the inserted empty tilesets make no tile solid |
| Levels.BlocksSpec | src/level.cpp:35-41 | adding blocks leaves the player alone |
| Levels.BlocksExactlySolid | src/level.cpp:35-41 | one block per solid tile is appended after the earlier calls, each on a fresh and increasing entity |
| Levels.BlockCallsSolid | src/level.cpp:35-41 | every block the loop adds stands on a solid tile of the level |
| Levels.BlockCallsIncrease | src/level.cpp:35-41 | without wrap-around the blocks go on strictly increasing entities past the allocator |
| Levels.AddBlocks | src/level.cpp:35-41 | the loop records the blocks of the specification and leaves the tilesets with the defaults inserted |
| Levels.Half | src/level.cpp:64-65 | integer halving truncates toward zero |
| Levels.Centre | src/level.cpp:63-65 | a tile's renderer sits at its position plus half its size, narrowed to int32 |
| Levels.FirstMissing | src/level.cpp:59-66 | the index of the first tile whose tileset is absent, or the count |
| Levels.RendererCalls | src/level.cpp:59-70 | one renderer per tile up to the first tile whose tileset is missing |
| Levels.RendererOfTile | src/level.cpp:63-69 | each renderer uses its tileset's path, the tile's centre, size, source and depth, on the single tile entity |
| Levels.RenderersCoverAll | src/level.cpp:37-66 | after the lookups of the block pass no tileset is missing, so every tile gets a renderer |
| Levels.AddTileRenderers | src/level.cpp:58-70 | the loop appends the renderer calls and reports the first missing tileset, for which at() throws |
| Levels.EnumerateKeys | src/level.cpp:75 | iterating the entity map visits every key once |
| Levels.PlacePlayer | src/level.cpp:89-95 | the player's body moves to the position and is made updating and collidable; nothing else of the body changes |
| Levels.IdsKeys | src/level.cpp:75-82 | exactly the entities whose name is registered get a game entity |
| Levels.IdsFrom | src/level.cpp:75-82 | the id loop over the visiting order, one step per present entity; properties in Levels.IdsFresh |
| Levels.IdsFresh | src/level.cpp:75-82 | every new game entity is distinct and newer than all earlier ones |
| Levels.IdStepFresh | src/level.cpp:75-82 | one entity of the id loop receives at most one id, newer than every id handed out before |
| Levels.FirstPlayerPosition | src/level.cpp:83 | the index of the first PlayerPosition entity visited, or the count |
| Levels.PlayerPlacedOnce | src/level.cpp:83-99 | when a reset is pending and a player exists, the first PlayerPosition places it and clears the reset; otherwise neither changes |
| Levels.AssignIds | src/level.cpp:72-101 | the loop gives the identifiers, allocator, player and reset flag of the specification |
| Levels.ResolveField | src/level.cpp:108-120 | a reference to an entity with a game id takes that id; every other field is kept |
| Levels.ResolveFields | src/level.cpp:106 | resolving keeps the field names |
| Levels.ResolveEntities | src/level.cpp:104 | resolving keeps the level entities |
| Levels.ResolvedReadsId | src/level.cpp:108-115 | after resolving, get_field for a game entity reads the referenced entity's game id |
| Levels.ResolveIdempotent | src/level.cpp:103-122 | resolving twice is resolving once |
| Levels.ResolveFieldsOf | src/level.cpp:106-121 | the loop over one entity's fields gives the resolved fields |
| Levels.ResolveReferences | src/level.cpp:103-122 | the loop over all entities gives the resolved entity map |
| Levels.ConstructCall | src/level.cpp:127-130 | an entity yields at most one constructor call |
| Levels.ConstructCalls | src/level.cpp:125-131 | at most one constructor call per entity visited |
| Levels.ConstructedOnlyRegistered | src/level.cpp:125-131 | every constructed component belongs to a registered entity, with its game id and its form's argument |
| Levels.ConstructedEachRegistered | src/level.cpp:125-131 | every registered entity whose argument exists gets its component constructed |
| Levels.RunConstructors | src/level.cpp:124-131 | the loop appends the constructor calls |
| Levels.RenderSpec | src/level.cpp:58 | the renderer pass allocates one entity and leaves the player alone |
| Levels.PopulateSpec | src/level.cpp:72-131 | giving ids, resolving and constructing never throws and keeps the level entities |
| Levels.CreateSpec | src/level.cpp:54-132 | create_entities throws exactly when a tile's tileset is missing |
| Levels.CreateIdsExactlyRegistered | src/level.cpp:72-101 | the first pass gives distinct, fresh game ids to exactly the registered entities |
| Levels.BuildNeverThrows | src/level.cpp:35-45 | once the loader succeeded the build completes and ends with call_init |
| Levels.BuildAppends | src/level.cpp:35-45 | building only appends calls to the manager |
| Levels.BuildSpec | src/level.cpp:35-45 | build: blocks, then create_entities, then call_init when nothing threw; properties in Levels.BuildNeverThrows |
| Levels.LoadPhases | src/level.cpp:24-46 | load first destroys non-persistent entities and calls destroy, succeeds exactly when the loader does, and then ends with call_init and a loader |
| Levels.LevelLoadSpec | src/level.cpp:24-46 | Level::load: destroy the non-persistent entities and call destroy, load from the loader, then build when it succeeded; properties in Levels.LoadPhases |
| Levels.Level.constructor | src/level.hpp:58-61 | no loader and a pending player reset |
| Levels.Level.Load | src/level.cpp:24-46 | the scene and error are those of the load specification, and the returned order enumerates the loaded entities |
| Levels.Level.LoadLoader | src/level.cpp:30-33 | the first load creates a loader, later ones reuse it; a failed creation leaves none |
| Levels.Level.Build | src/level.cpp:35-45 | blocks, entities and init follow the build specification |
| Levels.Level.CreateEntities | src/level.cpp:54-132 | the outcome is that of the create_entities specification and the entity keys stay the same |
| Levels.Level.Populate | src/level.cpp:72-131 | ids, references and constructors follow the populate specification |
| Levels.Level.Reload | src/level.cpp:48-52 | without a loader nothing happens; otherwise the level of the loader's name is loaded again |
| Levels.Level.LoadNeighbour | src/level.cpp:169-179 | a direction without a neighbour changes nothing; otherwise the neighbour's level is loaded |
| Games.FilterMembers | src/game.cpp:673 | std::erase_if keeps exactly the elements that are not erased |
| Games.Filter | src/game.cpp:673 | the elements kept by the predicate, in order; properties in Games.FilterMembers |
| Games.FilterSplits | src/game.cpp:673-682 | the elements kept and the elements erased together number the whole sequence |
| Games.CountDownAsWritten | src/game.cpp:677 | the size_t decrement takes a positive count down by one and wraps 0 to 2^64-1; entity and callback are kept |
| Games.CountDown | src/game.cpp:675-682 | a timer of at most one frame reaches 0, and a longer one counts down by one; entity and callback are kept |
| Games.Due | src/game.cpp:678-679 | the callbacks of the timers at 0, in timer order; properties in Games.DueMembers and Games.DueCount |
| Games.DueMembers | src/game.cpp:678-679 | a callback runs exactly when a timer carrying it is at 0 |
| Games.DueCount | src/game.cpp:678-679 | one callback runs for each timer at 0 |
| Games.UpdateTimersAsWritten | src/game.cpp:671-683 | as written, at most one callback per timer runs and no timer is added |
| Games.ZeroFrameTimerNeverFires | src/game.cpp:677-682 | as written, a timer added with 0 frames wraps to 2^64-1, does not fire and is kept |
| Games.UpdateTimersSpec | src/game.cpp:671-683 | at most one callback per timer runs and no timer is added |
| Games.AgreesFromOneFrame | src/game.cpp:671-683 | for timers of at least one frame the corrected update is the update as written |
| Games.ZeroFrameTimerFiresOnce | src/game.cpp:671-683 | a timer of 0 frames on an existing entity fires once and is dropped |
| Games.TimerFate | src/game.cpp:671-683 | an existing timer of at most one frame fires, a longer one stays one frame shorter, and every kept timer came from one with one more frame |
| Games.FiredOnlyDue | src/game.cpp:673-679 | every callback that ran belongs to an existing timer whose count reached 0 |
| Games.FiresOrStays | src/game.cpp:671-683 | each timer of an existing entity either fires or is kept, never both |
| Games.DrawnCallbacks | src/game.cpp:810-814 | at most one callback per deferred draw runs |
| Games.DrawnOnlyExisting | src/game.cpp:808-816 | a deferred callback runs exactly when its entity exists |
| Games.Substr | src/game.cpp:844 | substr(0, n) is the prefix of length n, or the whole string when it is shorter |
| Games.QueueSpec | src/game.cpp:818-821 | the message joins the back of the queue and nothing else of the typewriter changes |
| Games.UpdateMessagesSpec | src/game.cpp:823-877 | update_messages: reveal one character after each delay, skip on an action, mark a whole message ready, and drop a ready message on an action; properties in Games.UpdateShows and Games.MessagesFifo |
| Games.InitialShows | src/game.hpp:105-107 | the fresh typewriter shows nothing |
| Games.Shows | src/game.cpp:823-877 | the typewriter invariant: nothing shown without messages, the front message whole once ready, and a prefix of it before |
| Games.QueueShows | src/game.cpp:818-821 | queueing keeps what the typewriter shows consistent with the front message |
| Games.UpdateShows | src/game.cpp:823-877 | an update keeps the shown text a prefix of the front message, whole once ready |
| Games.MessagesFifo | src/game.cpp:861-865 | the queue changes exactly when a ready message is dismissed by an action, and then loses only its front |
| Games.RevealGrows | src/game.cpp:838-846 | with the delay run out, one more character of the front message is shown in its colour |
| Games.DelayBetweenReveals | src/game.cpp:840-851 | while the delay runs the shown text stays; an action starts skipping, which zeroes the delay, and otherwise the delay counts down |
| Games.ReadyWhenComplete | src/game.cpp:853-857 | a message shown whole becomes ready and stays queued |
| Games.DismissReady | src/game.cpp:859-876 | a ready message waits for an action; then it is dropped, skipping stops, and the next message's first character, or an empty white text, is shown |
| Games.EdgeDirection | src/game.cpp:502-525 | the player crosses no edge exactly when inside the margins; West exactly when x < 4, East exactly when not West and x >= width - 4; otherwise North or South |
| Games.Arrival | src/game.cpp:502-525 | where the player lands: x at width - 5 going West, 5 going East, y at height - 16 going North, 2 going South; properties in Games.ArrivalInside |
| Games.ArrivalInside | src/game.cpp:504-524 | after crossing, the player lands inside the new level's margins on the axis it crossed, with the other coordinate kept |
| Games.EdgeSpec | src/game.cpp:490-531 | crossing an edge changes only the level size and the player's position |
| Games.AtMostOneNeighbour | src/game.cpp:502-531 | an update loads at most one neighbour, first, and exactly when the player is at an edge |
| Games.PhasesOnlyWhenIdle | src/game.cpp:563-600 | pre-update, update and post-update run exactly when no tick is skipped and no message is queued, in that order and followed by init |
| Games.SkippedTick | src/game.cpp:566-570 | a skipped tick counts the skip down and leaves timers, callbacks and messages alone |
| Games.SkipTicksSpec | src/game.cpp:785-788 | skip_ticks adds the count, with size_t wrap, and changes nothing else |
| Games.SkipsExactly | src/game.cpp:566-570 | skipping n ticks runs no update phase for n updates and then has nothing left to skip |
| Games.StepSpec | src/game.cpp:572-602 | an unskipped tick: messages updated when any are queued, then the corrected timer update |
| Games.SkipOrStepSpec | src/game.cpp:566-602 | a pending skip is counted down and nothing else runs; otherwise the step runs |
| Games.UpdateSpec | src/game.cpp:482-603 | G_update_game: the tick count grows with size_t wrap, the player crosses an edge, then the skip or the step |
| Games.UpdatePhases | src/game.cpp:490-600 | the manager calls of an update: the edge's, then call_destroy and call_init, then the step's; properties in Games.PhasesOnlyWhenIdle |
| Games.EraseDead | src/game.cpp:673 | the loop keeps the timers of existing entities, in order |
| Games.CountDownEach | src/game.cpp:675-680 | the loop counts every timer down and runs the callbacks of those at 0, in order |
| Games.EraseExpired | src/game.cpp:682 | the loop keeps the timers still counting, in order |
| Games.Game.constructor | src/game.hpp:72-107 | a new game has no ticks, skips, timers, deferred draws or messages |
| Games.Game.AddTimer | src/game.cpp:651-654 | the timer is appended |
| Games.Game.UpdateTimers | src/game.cpp:671-683 | the timers and the callbacks run follow the corrected timer update |
| Games.Game.DeferDraw | src/game.cpp:803-806 | the deferred draw is appended |
| Games.Game.DrawDeferred | src/game.cpp:808-816 | the callbacks of existing entities run in order and the list is cleared |
| Games.Game.QueueMessage | src/game.cpp:818-821 | the typewriter follows the queue specification |
| Games.Game.UpdateMessages | src/game.cpp:823-877 | the typewriter follows the update_messages specification |
| Games.Game.SkipTicks | src/game.cpp:785-788 | the state follows the skip_ticks specification |
| Games.Game.EndLevel | src/game.hpp:53 | each call ends the level once more |
| Games.Game.CrossEdge | src/game.cpp:490-531 | the state and the phases follow the edge specification |
| Games.Game.Update | src/game.cpp:482-603 | the state and phases follow G_update_game with the corrected timer update (UpdateSpec), and the level is not ended |
| Games.Game.SkipOrStep | src/game.cpp:566-602 | a skipped tick or a full step with the corrected timer update (SkipOrStepSpec) |
| Games.Game.Step | src/game.cpp:572-602 | the messages or the update phases, then init and the corrected timer update (StepSpec) |
| Interactables.ExecuteSpec | src/interactable.cpp:28-59 | the effect of one action on the message queue, the level's field store, the end-level count and the first player's health (its properties are the lemmas below) |
| Interactables.InteractSpec | src/interactable.cpp:61-72 | the actions executed one after another in list order (its properties are the lemmas below) |
| Interactables.MessageAction | src/interactable.hpp:15-19 | a message action built from its text alone is shown in the palette's white |
| Interactables.InteractSplits | src/interactable.cpp:68-71 | running two lists of actions is running the first, then the second |
| Interactables.InteractQueuesMessages | src/interactable.cpp:30-71 | every message action queues its message once, in list order, behind the messages already queued |
| Interactables.InteractEndsLevels | src/interactable.cpp:38-71 | the level is ended once per end-level action |
| Interactables.PickupsKeepHealthBounded | src/interactable.cpp:42-54 | without a hurtable player pickups do nothing; with one, non-negative pickups keep health within 0 and the maximum |
| Interactables.StoreReadsBack | src/interactable.cpp:34-37 | after a store action the stored field reads back for that entity and key |
| Interactables.ExecuteAction | src/interactable.cpp:28-59 | each alternative acts on its target: the message queue, the level's field store, the end-level count, or the first player's health when it has one |
| Interactables.Interactable.constructor | src/interactable.hpp:32-69 | a new component is enabled, unused and holds the given actions in order |
| Interactables.Interactable.Enable | src/interactable.hpp:41-44 | the component becomes enabled and its used flag is kept |
| Interactables.Interactable.Disable | src/interactable.hpp:46-49 | the component becomes disabled and its used flag is kept |
| Interactables.Interactable.Add | src/interactable.hpp:61-65 | the action is appended after the existing ones |
| Interactables.CannotInteract | src/interactable.cpp:13-26 | a disabled component, or one without a Physics body, never interacts |
| Interactables.InteractSymmetric | src/interactable.cpp:18-23 | an enabled component interacts exactly when its body's rectangle and the other rectangle overlap, whichever of the two comes first |
| Interactables.Interactable.Interact | src/interactable.cpp:61-72 | a disabled component changes nothing; an enabled one is marked used and executes each action once, in order |
| Interactables.GetPosition | src/interactable.cpp:74-84 | the origin without a body; otherwise the body's y and an x halfway across the mask, with an odd width truncated toward zero |

## Left out

- Rendering, audio and window calls are not modelled: `G_draw_game`, `draw_messages`, `Sprite::draw`, texture and aseprite loading, `Mask::draw`, the particle system, and music and mute handling in `G_update_game`.
- The `#if defined(DEBUG)` blocks of `G_update_game` are not modelled: mouse teleport and Alt-key movement.
- Memory and type-erasure code is not modelled: `Manager::get` placement-new, `allocate_manager`/`allocate_game`, `ComponentPadded`, and the `COMPONENT`/`REGISTER_COMPONENT` macros. The component registry is a fixed finite set of type tags.
- Hooks (`std::function`) are recorded as calls, so what a callback does inside the game is not modelled. There is one exception. An `init()` hook run by `Manager::call_init` may add components, and `Manager.Manager.CallInit` takes those additions as an `InitEffect` parameter. An empty hook is an error path.
- `LevelLoader::load_project` does no file or JSON I/O here. Its outcome is the `ProjectFile` parameter: missing, unopenable, unparsable, not matching the schema, or parsed. `get_tileset_path` joins paths with `std::filesystem`. The model concatenates `"assets/"` and the relative path, which differs only for an absolute or empty relative path.
- Only the members of the LDtk schema structs that the loader reads are modelled. The rest of the nlohmann-based (de)serialisers are not.
- `LevelLoader::loaded` is never read or written by the code, so it is not modelled.
- The `Level` getters (`get_world_x`, `get_world_y`, `get_width`, `get_height`, `get_name`) and its destructor are not modelled. They are field reads and a `delete`.
- The input code's mouse-position and cursor functions are not modelled, because they need window and float state: `game_mouse`, `interface_mouse`, `update_game_mouse`, `update_interface_mouse`, `hide_cursor`, `show_cursor`.
- Sprite queries and setters with no frame logic are not modelled: `has_tag`, `is_playing_animation`, `set_animation`, `get_frame`, `get_frame_count`.
- `Game::end_level` is declared but its definition is not part of this model. Its calls are counted (`levelsEnded`).
- `Game::on_screen` and frame progress are float camera arithmetic and are not modelled.
- `Interactable::Action` has two alternatives in src/interactable.hpp, but src/interactable.cpp dispatches on four. The model follows the .cpp: message, level store, end level and health pickup.
- Physics.PhysicsWorld.MoveXY: the transport of riders and pushables recurses through `move_xy`. The model bounds that recursion by a `fuel` depth, and a depth it does not reach is not moved. For a solid mover the contract states only that positions, velocities and remainders change and nothing else. The exact motion is stated for non-solid movers (`MoveFree`), per pixel step by `StepOnce`, and for the bodies a solid moves by `Transport` (`TransportSpec`).
- Physics.PhysicsWorld.Transport: the exact result (`TransportSpec`) is stated when no rider is itself solid. A solid rider moves by its own transport, which is bounded by `fuel` as in `MoveXY`. Riders and pushables are visited in store order. The source iterates a `std::set` of pointers, and pointer order is slot order in the store's contiguous array.
- Physics.PhysicsWorld.CarryAll: states the exact result only when no rider is solid, as `Transport` does.
- Physics.PhysicsWorld.PushAll: states the exact result only when no pushable is solid. The bodies `get_pushable` returns are never solid, so this covers every call.
- Physics.PhysicsWorld.UpdateAll: states that the body count is kept and that collision events are only appended. The per-body effect is in `Update`.
- The collision broadcast of `check_collisions` dereferences the manager's collision hooks without checking them. The model records a broadcast as incomplete (`ok` false) when a type has lost its hook, instead of crashing.
- CachedResources.CachedResource.Use: requires that the path is cached. On an absent path the source dereferences a null `shared_ptr`.
- EntityContainer.EntityContainer.Create: requires that the identifier does not wrap past 2^64-1. Apart from that it follows the `size_t` arithmetic.
- Sprites.Sprite.SetFrame: requires a frame count below 128, the range of the `int8_t` frame index the clamp stores into.
- Sprites.Sprite.SetFrameRelative: requires a frame count below 128, as `SetFrame` does.
- The iteration order of the `unordered_map`s in `create_entities` is unspecified. It is a parameter: an enumeration of the keys, which the methods return.
- Entity capacity in the level builder: `World` hands out identifiers without the manager's 4096-entity limit. That limit is modelled in `EntityContainer`.
- Floating-point rounding of `float` values is not modelled: `real` arithmetic is exact.
- ComponentStore.ComponentManager.Remove: runs the corrected remove (`RemoveSpec`). It skips the swap when the slot is the last one, so the removed reference stays INVALID_INDEX. The remove as written in src/manager.hpp:96-113 revives that reference. It is modelled only by `ComponentStore.RemoveAsWritten` (see "Findings").
- Manager.RemoveEntityRecords: removes each record with the corrected remove (`RemoveSpec`), not the remove as written. See `ComponentStore.ComponentManager.Remove`.
- Manager.Manager.RemoveComponent: removes the records through `RemoveEntityRecords`, so with the corrected remove.
- Manager.Manager.RemoveFromStores: removes the records through `RemoveEntityRecords`, so with the corrected remove.
- Manager.Manager.DestroyFront: removes the entity's records with the corrected remove.
- Manager.Manager.CallDestroy: destroys each queued entity with the corrected remove.
- Manager.Manager.DestroyEntity: only queues the entity. The removal that follows in `CallDestroy` is the corrected one.
- Manager.Manager.DestroyNonPersistent: destroys through `CallDestroy`, so with the corrected remove.
- Games.Game.UpdateTimers: runs the corrected timer update (`UpdateTimersSpec`). A timer of 0 frames fires on the next update. As written in src/game.cpp:677, the count wraps to 2^64-1 and the timer never fires. That is modelled only by `Games.UpdateTimersAsWritten` (see "Findings"). For timers of at least one frame the two agree (`Games.AgreesFromOneFrame`).
- Games.Game.AddTimer: accepts 0 frames, which the corrected timer update fires on the next update. See `Games.Game.UpdateTimers`.
- Games.Game.Step: ends with the corrected timer update (`StepSpec`). See `Games.Game.UpdateTimers`.
- Games.Game.SkipOrStep: a step runs the corrected timer update (`SkipOrStepSpec`). See `Games.Game.UpdateTimers`.
- Games.Game.Update: follows G_update_game with the corrected timer update (`UpdateSpec`). See `Games.Game.UpdateTimers`.
- Games.Substr: a message is a sequence of characters, and the typewriter reveals one character per step. `std::string::substr` at src/game.cpp:844 counts bytes, so a multi-byte UTF-8 character is revealed one byte at a time in the source. The model treats a message as one character per byte.
- Ldtk.GetInt: JSON numbers are signed 64-bit integers or floats. An unsigned JSON integer above 2^63-1 is not representable. The library casts it modulo 2^64, and that cast is not modelled. For a float whose truncation does not fit in 64 bits the cast is undefined behaviour in C++. The model returns `CastOverflow` for it.
- EntityContainer.EntityContainer.Contains: the debug `assert(entities_count < entities.size())` of src/manager.hpp:220 is not a precondition. The model answers as a release build does. That assert fails whenever the container is full.
- Hurtables.Hurtable.Hurt: `health - damage` is unbounded here. In the source's 32-bit `int` it overflows for a damage close to the most negative `int`, which is undefined behaviour.
- Hurtables.Hurtable.AddHealth: `health + amount` is unbounded here. In the source's 32-bit `int` it overflows for an amount close to 2^31-1, which is undefined behaviour.

## Findings

| source | as written | input that shows it | evidently intended | confidence | as-written member | corrected member |
|---|---|---|---|---|---|---|
| src/manager.hpp:96-113 | `remove(i)` swaps with the last slot whenever more than one record is live, even when `i` is the last slot; it then writes `component_indices[ref(i)] = i`, undoing the `INVALID_INDEX` it just stored | a store with two records, `remove(1)`: the removed reference points at slot 1 again, and the next `push` makes it resolve to the new record | the removed reference stays invalid; no swap when `i` is already the last slot | not executed | ComponentStore.RemoveLastAsWrittenRevivesReference | ComponentStore.RemoveKeepsReferences |
| src/game.cpp:671-683 | `frames -= 1` on a `size_t` wraps a timer added with 0 frames to 2^64-1, so its callback never runs and the timer is never dropped | `add_timer(e, f, 0)` with `e` live: after the update the timer holds 2^64-1 frames and `f` has not run | a timer of 0 frames fires on the next update, like one of 1 frame (every caller shown passes 10 or 30: src/battery.cpp:154, src/battery.cpp:170, src/enemy.cpp:276) | not executed | Games.ZeroFrameTimerNeverFires | Games.ZeroFrameTimerFiresOnce |
