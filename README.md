# promisepp core in Dafny

This project models two parts of promisepp, a small C++ promise library, and proves properties of the model:

- **Slab allocator.** It carves 1 MB slabs of fixed-size chunks out of one preallocated pool.
- **Promise runtime.** This covers the settlement states, the error type, the continuation adapters and the promise settlement engine.

## The slab allocator

Modules: `SizeClasses`, `SlabSpec`, `SlabAllocator`.

`SizeClasses` holds the size-class arithmetic:
- the number of chunks in a slab, the next class, the remainder and the number of possible slabs;
- `closest_chunk_size`, as a method with its loop, proved against a class-index function.

The C code computes `(size_t)(1.25*x)`, `floor(MB/cs)` and `ceil(n/MB)` in floating point. These are exact at these magnitudes, so the model uses the integer forms `(5*x)/4`, `MB/cs` and a ceiling division.

`SlabSpec` describes the allocator as a value, an `ArenaView`:
- the counters `avail_slabs`, `possible_slabs`, `pool_size` and `first_free_byte`;
- the slab list in list order;
- for each slab: its class, `has_space`, and its chunks (used flag, data offset).

Pointers are byte offsets into the pool. The `slab` and `chunk` records that the C code also takes from the pool are accounted for by the pool bytes they occupy: 48 and 16 bytes, `sizeof(struct slab)` and `sizeof(struct chunk)` on an LP64 target (`SlabSpec.SlabRecordSize`, `SlabSpec.ChunkRecordSize`). The module states, as functions:
- `pick_chunk`, `pick_slab`, `create_slab`, `create_slabs`, `init_slab_allocator`;
- `alloc_mem`, `remove_if_belong_here`, `free_mem`.

It then proves the allocator's invariant (`ArenaInv`) and the properties of these operations as lemmas.

`SlabAllocator` is the imperative form:
- a class `Slab`, whose chunk array is updated in place;
- a class `Allocator`, which owns the pool byte array, the counters and the slab list.

The slab list (`slab_head`/`next`/`prev`/`slab_tail`) is a sequence of `Slab` objects in list order. Every procedure is proved to leave the allocator in the state the matching `SlabSpec` function gives (`View() == SlabSpec.AllocMem(old(View()), n).0`, and so on). `free_mem` also zeroes the chunk's bytes of the pool array.

## The promise runtime

Modules: `PromiseErrors`, `States`, `Lambdas`, `PromiseSpec`, `PromiseLaws`, `PromiseRuntime`.

`PromiseErrors` models `Promise_Error`:
- A `std::exception` is seen only through `what()`, a C string: the characters before the first NUL. Its text is therefore a `CString`, a string with no NUL in it.
- A `Promise_Error` keeps a whole `std::string`, so `==` compares messages in full.
- `operator=` is a method of a small class that overwrites the message in place.

`States` models `State`, `PendingState`, `ResolvedState<T>` and `RejectedState` as one datatype:
- A default-constructed `ResolvedState` or `RejectedState` keeps the base class's Pending tag.
- Equality compares tags only.

`Lambdas` models the two adapters and `Chain`:
- A user handler is a pure function.
- A handler returns either nothing (a void lambda) or a promise pointer. The runtime reads that pointer only through `get_state()`, so the model represents it by that state.

`PromiseSpec` models the settlement engine as values:
- Each promise is named by its `_id`, the creation counter plus one.
- Its handles and `_Promises` list form a `Node`. Settling never changes a Node.
- Every promise's `_state` is kept in a `Run`.
- A child is always created after its parent. So `_settle`, `_withResolveHandle`/`_withRejectHandle` and `_resolve`/`_reject` terminate on the measure (counter − id, rank).

Threads become direct calls: a handler runs to completion where the C++ code starts a thread for it. A null-pointer dereference in the C++ code (undefined behaviour) sets the run's `crashed` flag instead. A settlement callback is the sequence of calls it makes on its `Settlement`.

`PromiseLaws` proves what the chaining calls, the factories and `await` do. `PromiseRuntime.Runtime` is the imperative form: a class holding the counter, the nodes and the states. Each of its methods is proved to end in the state the matching `PromiseSpec` function describes. Where the code departs from what it evidently intends (see "## Findings"), the runtime has both forms: `CatchAsWritten`, `Finally` and `RejectNowAsWritten` follow the code, and `Catch`, `FinallyPassThrough` and `RejectNow` follow the intent.

Where the code and its tests disagree, the model follows the code:
- `ResolvedState<T>::get_value` is never null, even for a default-constructed state (State.h:107-109). Tests/State_Tests.cpp:9-18 expects null.
- The `_state == nullptr` alternative inside `then`, `_catch` and `finally` is unreachable, because each of them has already thrown "state is null" for a null state.
- `Settlement::resolve` and `Resolve` hand a `T*` to `ResolvedState<T>`, whose constructor takes a `T` (Promise.h:47-49, 447-449). The model takes the state to hold the value `v` itself.

## Model

| member | source | states |
|---|---|---|
| SizeClasses.GetNumberChunks | Slab_Allocator.cpp:11-14 | the chunk count is the largest n with n chunks fitting in 1 MB |
| SizeClasses.GetChunkSize | Slab_Allocator.cpp:18-29 | the next class is a multiple of 8 within 4 bytes of floor(1.25·x), and larger than x for x ≥ 80 |
| SizeClasses.ClassSize | Slab_Allocator.cpp:124-137 | every class built from 80 by get_chunk_size is at least 80 and a multiple of 8 |
| SizeClasses.ClassSizeMatchesTable | Slab_Allocator.cpp:124-137 | the 41 classes create_slabs builds are 80, 96, 120, …, 573760 |
| SizeClasses.LastClassIsMax | Slab_Allocator.cpp:219-229 | class 40 is 573760, the saturation value of closest_chunk_size |
| SizeClasses.ClassSizeIncreasing | Slab_Allocator.cpp:18-29 | the classes strictly increase |
| SizeClasses.ChunksOfClassesMatchTable | Slab_Allocator.cpp:176-179 | the running totals of chunk counts over the classes match their reference table |
| SizeClasses.InitialChunkCount | Slab_Allocator.cpp:176-179 | the 41 initial slabs hold exactly 67377 chunks |
| SizeClasses.ChunksAtMostMax | Slab_Allocator.cpp:181-184 | no class holds more than the 13107 chunks of class 80, and each holds at least one |
| SizeClasses.RemainderSize | Slab_Allocator.cpp:62-65 | chunks plus remainder are exactly 1 MB, and the remainder is below the chunk size |
| SizeClasses.NumberSlabClasses | Slab_Allocator.cpp:34-40 | 0 exactly below 41 MB; otherwise ceil(size / 1 MB), which is at least 41 |
| SizeClasses.ClassIndexFor | Slab_Allocator.cpp:219-229 | the smallest class holding the request, or the last class for requests ≥ 573760 |
| SizeClasses.SmallestClassFrom | Slab_Allocator.cpp:219-229 | the walk from class k stops at the smallest class holding the request |
| SizeClasses.SmallestClassUnique | Slab_Allocator.cpp:219-229 | at most one class is the smallest that fits a request |
| SizeClasses.SmallestIsLeast | Slab_Allocator.cpp:219-229 | the smallest fitting class is no larger than any fitting class |
| SizeClasses.ChunkSizeForFits | Slab_Allocator.h:84-87 | the rounded size holds requests up to 573760, is 573760 for larger ones, and is the least fitting class |
| SizeClasses.ClosestChunkSize | Slab_Allocator.cpp:219-229 | the loop returns the size of the class ClassIndexFor picks |
| SlabSpec.ChunkInSlab | Slab_Allocator.cpp:69-82 | chunk i's data is base + i·chunk_size and lies inside the slab's 1 MB |
| SlabSpec.DataDistinct | Slab_Allocator.cpp:69-82 | two different chunks never share a data address |
| SlabSpec.FirstUnusedFrom | Slab_Allocator.cpp:249-270 | the lowest unused index at or after i, or none when all are used |
| SlabSpec.SetUsed | Slab_Allocator.cpp:249-270 | only chunk i's flag changes |
| SlabSpec.PickChunkTakesLowestFree | Slab_Allocator.cpp:249-270 | pick_chunk takes the lowest free chunk and changes no other; it clears has_space exactly at the last index; it fails only when all are used, and then changes nothing |
| SlabSpec.PickChunkSucceedsWithSpace | Slab_Allocator.cpp:249-270 | a slab with has_space always yields a chunk |
| SlabSpec.PickChunkKeepsSlabOk | Slab_Allocator.cpp:249-270 | has_space still implies a free last chunk |
| SlabSpec.PickSlabFrom | Slab_Allocator.cpp:233-245 | the first slab from k of the request's class with has_space, or none |
| SlabSpec.NewSlabOk | Slab_Allocator.cpp:86-120 | a fresh slab is well formed and ends at its footprint |
| SlabSpec.CreateSlabKeepsLaid | Slab_Allocator.cpp:86-120 | the new slab's region follows every earlier one |
| SlabSpec.CreateSlabKeepsInv | Slab_Allocator.cpp:86-120 | appending a slab while avail_slabs < possible_slabs keeps the invariant |
| SlabSpec.WithSlabKeepsInv | Slab_Allocator.cpp:249-270 | replacing a slab by one in the same place keeps the invariant |
| SlabSpec.PickFromKeepsInv | Slab_Allocator.cpp:249-270 | pick_chunk keeps the allocator invariant |
| SlabSpec.PickSlabAfterCreate | Slab_Allocator.cpp:293-303 | after create_slab of the class, pick_slab finds the new slab |
| SlabSpec.AllocMemKeepsInv | Slab_Allocator.cpp:274-324 | alloc_mem keeps the allocator invariant |
| SlabSpec.AllocMemOutcome | Slab_Allocator.cpp:274-324 | NULL exactly for num_bytes ≤ 0 or when no slab can be used or added, and then no change; a slab is appended exactly when none of the class has space and avail_slabs < possible_slabs |
| SlabSpec.AllocMemTakesChunk | Slab_Allocator.cpp:274-324 | a successful alloc_mem marks exactly the lowest free chunk of the chosen slab |
| SlabSpec.TakesFromExisting | Slab_Allocator.cpp:274-324 | the same, when an existing slab serves the request |
| SlabSpec.TakesFromNew | Slab_Allocator.cpp:274-324 | the same, when a new slab serves the request |
| SlabSpec.PickFromTakes | Slab_Allocator.cpp:249-270 | pick_chunk on slab k leaves every other slab as it was |
| SlabSpec.AllocPointerFresh | Slab_Allocator.cpp:274-324 | the returned pointer is no chunk already in use: no chunk is handed out twice |
| SlabSpec.AllocMemChunkClass | Slab_Allocator.h:97-99 | the chunk has closest_chunk_size's class, which holds requests up to 573760 |
| SlabSpec.AllocMemOversizeAfterInit | Slab_Allocator.cpp:274-324 | as written, a 600000-byte request succeeds with a 573760-byte chunk |
| SlabSpec.AllocMemCheckedFits | Slab_Allocator.h:97-99 | with the size check, every chunk handed out holds the request, and oversize requests give NULL |
| SlabSpec.FindUsedFrom | Slab_Allocator.cpp:328-343 | the first used chunk from i whose data is the pointer, or none |
| SlabSpec.RemoveIfBelongHereIff | Slab_Allocator.h:101-103 | 0 exactly when a used chunk has that data, and then only that chunk is freed; -1 otherwise with no change; has_space never changes |
| SlabSpec.FreeFrom | Slab_Allocator.cpp:347-385 | the walk keeps the slab count and stops at a slab position |
| SlabSpec.FreeMem | Slab_Allocator.cpp:347-385 | a slab is found only for a non-NULL pointer |
| SlabSpec.FreeFromUsed | Slab_Allocator.cpp:347-385 | the walk from any earlier slab releases the owning chunk |
| SlabSpec.FreeFromUnknown | Slab_Allocator.cpp:347-385 | a pointer of no used chunk leaves the arena unchanged |
| SlabSpec.FreeMemUsedChunk | Slab_Allocator.cpp:347-385 | free_mem of a used chunk's data returns 0 and frees that chunk only |
| SlabSpec.FreeMemUnknown | Slab_Allocator.cpp:347-385 | free_mem of NULL or of an unknown pointer returns -1 and changes nothing |
| SlabSpec.FreeMemBounds | Slab_Allocator.cpp:347-385 | the bytes free_mem zeroes lie inside the pool |
| SlabSpec.FreeFromFinds | Slab_Allocator.cpp:347-385 | the slab the walk stops at has a used chunk with that data |
| SlabSpec.ReleaseKeepsInv | Slab_Allocator.cpp:328-343 | freeing a used chunk keeps the invariant |
| SlabSpec.FreeMemKeepsInv | Slab_Allocator.cpp:347-385 | free_mem keeps the allocator invariant |
| SlabSpec.DoubleFreeFails | Slab_Allocator.cpp:347-385 | a second free_mem of the same pointer returns -1 and changes nothing |
| SlabSpec.FullSlabStaysFull | Slab_Allocator.cpp:328-343 | neither alloc_mem nor free_mem sets has_space back |
| SlabSpec.FreeMemHasSpace | Slab_Allocator.cpp:347-385 | free_mem keeps every slab's class and has_space |
| SlabSpec.FreeFromHasSpace | Slab_Allocator.cpp:328-343 | the walk keeps every slab's class and has_space |
| SlabSpec.AllocThenFree | Slab_Allocator.cpp:274-385 | freeing the pointer alloc_mem just returned succeeds and restores every chunk flag |
| SlabSpec.ClassTableBounds | Slab_Allocator.cpp:124-137 | every initial class lies between 80 and 573760 |
| SlabSpec.CreateSlabsShape | Slab_Allocator.cpp:124-137 | create_slabs appends k slabs and advances first_free_byte by their footprints |
| SlabSpec.CreateSlabsLaid | Slab_Allocator.cpp:124-137 | create_slabs keeps the layout |
| SlabSpec.CreateSlabsFresh | Slab_Allocator.cpp:124-137 | slab j has class j and every chunk free |
| SlabSpec.SlabsFootprintIsChunkCount | Slab_Allocator.cpp:176-190 | the initial slabs take records, chunk arrays and 1 MB each |
| SlabSpec.InitBudgetExact | Slab_Allocator.cpp:181-190 | all_size leaves room for every further slab at the largest footprint |
| SlabSpec.ClassTableIsClassSizes | Slab_Allocator.cpp:124-137 | the class table holds exactly the classes get_chunk_size generates from 80 |
| SlabSpec.InitArenaInv | Slab_Allocator.cpp:141-214 | init succeeds exactly for ≥ 41 MB, with possible_slabs = ceil(size/1 MB), 41 slabs and the invariant |
| SlabSpec.InitialArenaInv | Slab_Allocator.cpp:141-214 | the initial allocator satisfies the invariant |
| SlabSpec.InitialArenaShape | Slab_Allocator.cpp:141-214 | the initial counters: avail_slabs 41, first_free_byte after the 41 slabs, pool_size all_size |
| SlabSpec.InitialArenaSlabs | Slab_Allocator.cpp:124-137 | the initial slabs have the classes 80 … 573760 in order, all chunks free |
| SlabAllocator.Slab.constructor | Slab_Allocator.cpp:86-120 | a slab record with has_space set and a fresh chunk array |
| SlabAllocator.Slab.PickChunk | Slab_Allocator.cpp:249-270 | the loop ends in SlabSpec.PickChunk of the old slab |
| SlabAllocator.Slab.RemoveIfBelongHere | Slab_Allocator.cpp:328-343 | the loop ends in SlabSpec.RemoveIfBelongHere of the old slab |
| SlabAllocator.Allocator.constructor | Slab_Allocator.cpp:166-211 | the empty allocator with the pool allocated |
| SlabAllocator.Allocator.MallocBytes | Slab_Allocator.cpp:52-58 | returns the old first_free_byte and advances it by exactly the request |
| SlabAllocator.Allocator.CreateChunks | Slab_Allocator.cpp:69-82 | chunk data is consecutive from the old offset, and first_free_byte moves by exactly 1 MB |
| SlabAllocator.Allocator.LayOutSlab | Slab_Allocator.cpp:88-100 | record, chunk array and data taken from the pool in order |
| SlabAllocator.Allocator.Link | Slab_Allocator.cpp:102-119 | the slab is appended to the list, and avail_slabs is incremented |
| SlabAllocator.Allocator.CreateSlab | Slab_Allocator.cpp:86-120 | ends in SlabSpec.CreateSlab of the old state |
| SlabAllocator.Allocator.CreateSlabs | Slab_Allocator.cpp:124-137 | ends in SlabSpec.CreateSlabs of the old state |
| SlabAllocator.Allocator.Init | Slab_Allocator.cpp:141-214 | no allocator exactly when InitArena fails; otherwise a Ready allocator holding InitArena |
| SlabAllocator.Allocator.Build | Slab_Allocator.cpp:174-213 | a Ready allocator holding the initial arena |
| SlabAllocator.Allocator.PickSlab | Slab_Allocator.cpp:233-245 | returns SlabSpec.PickSlab |
| SlabAllocator.Allocator.AllocMem | Slab_Allocator.cpp:274-324 | ends in SlabSpec.AllocMem, returns its pointer, and keeps Ready |
| SlabAllocator.Allocator.AllocSteps | Slab_Allocator.cpp:282-324 | the same, for a non-empty slab list |
| SlabAllocator.Allocator.AllocFromNewSlab | Slab_Allocator.cpp:293-303 | the branch that appends a slab |
| SlabAllocator.Allocator.PickFromNewSlab | Slab_Allocator.cpp:297-302 | the re-pick after the append |
| SlabAllocator.Allocator.PickChunkAt | Slab_Allocator.cpp:249-270 | pick_chunk on slab k, with its data pointer |
| SlabAllocator.Allocator.RemoveAt | Slab_Allocator.cpp:328-343 | remove_if_belong_here on slab k |
| SlabAllocator.Allocator.AllocMemChecked | Slab_Allocator.h:97-99 | ends in SlabSpec.AllocMemChecked |
| SlabAllocator.Allocator.FreeMem | Slab_Allocator.cpp:347-385 | ends in SlabSpec.FreeMem and returns 0 or -1 as it says; zeroes exactly the chunk's bytes, and only on success |
| SlabAllocator.Allocator.FreeSteps | Slab_Allocator.cpp:356-385 | the walk and the memset for a non-NULL pointer |
| SlabAllocator.Allocator.TakeBack | Slab_Allocator.cpp:362-371 | remove_if_belong_here on each slab until one succeeds |
| SlabAllocator.Allocator.ZeroBytes | Slab_Allocator.cpp:376-382 | exactly count bytes from p become 0 |
| SlabAllocator.AllSizeBelowExabyte | Slab_Allocator.cpp:192-196 | for a TN that fits in an int, all_size ≤ 2^60, so the exit never happens |
| PromiseErrors.CPrefix | Promise_Error.h:29-31 | the characters before the first NUL: a NUL-free prefix, followed by a NUL when shorter |
| PromiseErrors.FromString | Promise_Error.h:13-15 | the message is the string |
| PromiseErrors.FromCString | Promise_Error.h:17-19 | the message is the buffer up to its NUL |
| PromiseErrors.FromException | Promise_Error.h:21-23 | the message is e.what() |
| PromiseErrors.CopyOf | Promise_Error.h:25-27 | the copy compares equal to the original |
| PromiseErrors.What | Promise_Error.h:29-31 | what() is the message when it has no NUL, and shorter otherwise |
| PromiseErrors.AsException | Promise_Error.h:29-31 | the error seen as a std::exception reports What |
| PromiseErrors.Neq | Promise_Error.h:49-51 | != is exactly the negation of == |
| PromiseErrors.WhatReturnsMessage | Promise_Error.h:13-31 | what() returns the message given to each constructor |
| PromiseErrors.ThroughExceptionKeepsEquality | Promise_Error.h:21-47 | rebuilding from the error's what() gives an equal error exactly when the message has no NUL |
| PromiseErrors.ErrorVar.constructor | Promise_Error.h:25-27 | the variable holds the initial error |
| PromiseErrors.ErrorVar.Text | Promise_Error.h:29-31 | what() of the variable never contains NUL |
| PromiseErrors.ErrorVar.Assign | Promise_Error.h:36-43 | self-assignment changes nothing; otherwise the message becomes src.what() |
| PromiseErrors.ErrorVar.AssignException | Promise_Error.h:36-43 | the message becomes x.what() |
| States.NewPending | State.h:59-85 | Pending, null value, noerr reason |
| States.DefaultResolved | State.h:90-91 | tag Pending, noerr reason |
| States.NewResolved | State.h:93-96 | Resolved, get_value gives v, noerr reason |
| States.DefaultRejected | State.h:129-131 | tag Pending, null value, noerr reason |
| States.RejectedWith | State.h:133-136 | Rejected, null value, the exception's message as reason |
| States.RejectedWithMessage | State.h:138-141 | Rejected, null value, the string as reason |
| States.RejectedWithCString | State.h:143-146 | Rejected, null value, the C string as reason |
| States.CopyOf | State.h:98-103 | the copy keeps status, value and reason |
| States.GetValue | State.h:107-109 | a value exactly for a ResolvedState, nullptr otherwise |
| States.GetReason | State.h:159-161 | the stored error for a RejectedState, noerr otherwise |
| States.Neq | State.h:36-46 | != is exactly the negation of == |
| States.EqIsTagEquality | State.h:32-46 | == compares tags only, and is an equivalence |
| States.AccessorsAreSafe | State.h:59-173 | a reason is always available; Resolved has a value and noerr; Rejected has no value |
| Lambdas.Chain | Lambda.h:36-66 | a void handler gives nullptr; a promise is passed on unchanged |
| Lambdas.Call | Lambda.h:93-142 | null state throws the adapter's message; ResolvedLambda gets the value (null dereference when there is none); RejectedLambda gets the reason |
| Lambdas.RejectedLambdaOnOtherStates | Lambda.h:93-104 | a RejectedLambda on a non-rejected state runs with noerr |
| Lambdas.ResolvedLambdaOnRejected | Lambda.h:130-142 | a ResolvedLambda on a rejected state dereferences null |
| PromiseSpec.Store | Promise.h:315-318 | `_state = s` changes only that promise's state |
| PromiseSpec.SettleKeepsOlder | Promise.h:409-434 | settling a promise never changes a promise created before it |
| PromiseSpec.WithHandleKeepsOlder | Promise.h:354-403 | running a handle never changes an older promise |
| PromiseSpec.NotifyKeepsOlder | Promise.h:322-324 | notifying children never changes the parent or older promises |
| PromiseSpec.PublishStores | Promise.h:315-337 | _resolve/_reject leave the promise holding the state they were given |
| PromiseSpec.NotifyIsSettleEach | Promise.h:322-336 | the notify loop settles the children one by one, in list order |
| PromiseSpec.PublishSettlesEachChild | Promise.h:315-337 | _resolve(s) stores s and settles each child with s as value; _reject does the same with s as reason |
| PromiseSpec.SettleAvoids | Promise.h:409-434 | settling a promise created after `id` never changes a promise that only `id`'s `_Promises` list holds |
| PromiseSpec.WithHandleAvoids | Promise.h:354-403 | running a handle of such a promise never changes that promise either |
| PromiseSpec.NotifyAvoids | Promise.h:322-336 | nor does notifying such a promise's children |
| PromiseSpec.SettleEachAvoids | Promise.h:322-336 | settling a run of younger siblings never changes a promise listed only by their parent |
| PromiseSpec.SettleEachSnoc | Promise.h:322-336 | settling a list with one more child at the end is settling the list, then that child |
| PromiseSpec.LastChildSettles | Promise.h:315-337 | _resolve(s)/_reject(s) settle the last child, listed by no one else, with s whatever its siblings do: its handle runs on s, or it takes s |
| PromiseSpec.SettleOutcome | Promise.h:409-434 | _settle runs the matching handle, or otherwise passes the state on unchanged; with both null it does nothing |
| PromiseSpec.HandleOutcome | Promise.h:354-403 | a returned promise's state is adopted; a void result ends the chain with a null state; a null dereference crashes |
| PromiseSpec.NewPromise | Promise.h:112-120 | `_id` is the counter plus one, and the new promise has no children |
| PromiseSpec.Bound | Promise.h:277-293 | a fresh promise with no children; every older node is unchanged |
| PromiseSpec.Register | Promise.h:160-171 | the child is appended to the parent's `_Promises` and nothing else changes |
| PromiseSpec.Then | Promise.h:146-174 | throws "state is null" exactly for a null state, changing nothing; otherwise returns the new promise `_id` = counter + 1; keeps the ids-and-children invariant |
| PromiseSpec.ThenHandle | Promise.h:214-225 | nullptr, with no change, exactly for a Rejected parent; otherwise the new promise; keeps the invariant |
| PromiseSpec.ThenResolved | Promise.h:176-201 | throws "state is null" exactly for a null state; nullptr with no change exactly for a Rejected parent; keeps the invariant |
| PromiseSpec.ThenLambda | Promise.h:203-226 | throws "lambda is null" exactly for a null lambda, before the state check; then "state is null" exactly for a null state; keeps the invariant |
| PromiseSpec.CatchAsWritten | Promise.h:228-236 | throws "catch(): state is null" exactly for a null state; as written, nullptr with no change exactly for a Rejected parent |
| PromiseSpec.Catch | Promise.h:228-236 | throws "catch(): state is null" exactly for a null state; otherwise always a new promise; keeps the invariant |
| PromiseSpec.Finally | Promise.h:238-260 | throws "finally(): state is null" exactly for a null state; otherwise always a new promise; keeps the invariant |
| PromiseSpec.FinallyPassThrough | Promise.h:238-260 | corrected finally: the same null-state error and new promise id; keeps the invariant |
| PromiseSpec.SettlementResolve | Promise.h:41-51 | a null promise throws "internal promise is null" and nothing changes; otherwise the promise holds ResolvedState(v) |
| PromiseSpec.SettlementReject | Promise.h:53-60 | the same with RejectedState(e) |
| PromiseSpec.SettlementRejectMessage | Promise.h:62-69 | the same with RejectedState(msg) |
| PromiseSpec.Execute | Promise.h:122-131 | the callback's calls change states only |
| PromiseSpec.WithExecutor | Promise.h:602-608 | a fresh promise, then the callback's calls |
| PromiseSpec.ResolveNow | Promise.h:445-454 | a new promise holding ResolvedState(v) |
| PromiseSpec.RejectNowAsWritten | Promise.h:437-443 | as written, the new promise's reason is "std::exception" |
| PromiseSpec.RejectNow | Promise.h:437-443 | the new promise's reason is e |
| PromiseSpec.AwaitAsWritten | Promise.h:582-598 | as written: null state gives nullptr; Rejected throws "std::exception"; otherwise the value |
| PromiseSpec.Await | Promise.h:582-598 | null state gives nullptr; Rejected throws its reason; otherwise get_value() |
| PromiseLaws.BoundOutcome | Promise.h:277-293 | the handle takes the slot matching the parent's status and has run with the parent's state |
| PromiseLaws.RegisteredIsLast | Promise.h:164-165 | a continuation registered on a Pending parent is the last entry of its list and on no other list |
| PromiseLaws.ThenOnPending | Promise.h:160-166 | on a Pending parent: exactly one new child `c` = counter + 1, appended to the parent's list, with both handles and a null state; no other link and no other state changes |
| PromiseLaws.ThenHandleOnPending | Promise.h:214-218 | on a Pending parent: the new child `c` is appended, holds the handle in the resolve slot only, and has a null state; no other link or state changes |
| PromiseLaws.ThenHandleOnResolved | Promise.h:219-221 | on a Resolved parent: the child is not registered and holds what the handle made of the parent's state; older states are unchanged |
| PromiseLaws.ThenResolvedOnPending | Promise.h:186-193 | then(h) on a Pending parent: the child is appended with ResolvedLambda(h) in the resolve slot only, and a null state; nothing else changes |
| PromiseLaws.ThenResolvedOnResolved | Promise.h:194-196 | then(h) on a Resolved parent: the child holds what h made of the value |
| PromiseLaws.ThenLambdaOnPending | Promise.h:203-218 | then(lam) on a Pending parent: the child is appended with lam in the resolve slot only, and a null state; nothing else changes |
| PromiseLaws.ThenLambdaOnResolved | Promise.h:219-221 | then(lam) on a Resolved parent: the child holds what lam made of the parent's state |
| PromiseLaws.CatchAsWrittenOnPending | Promise.h:228-236 | as written, _catch on a Pending parent appends a child with its RejectedLambda in the resolve slot and no reject handle |
| PromiseLaws.CatchOnPending | Promise.h:228-236 | corrected _catch on a Pending parent appends a child with the handler in the reject slot only |
| PromiseLaws.FinallyOnPending | Promise.h:245-252 | finally on a Pending parent appends a child holding ResolvedLambda(h) in both slots, with a null state; nothing else changes |
| PromiseLaws.FinallyOnResolved | Promise.h:253-255 | finally on a Resolved parent: the child holds what h made of the value, in place of the parent's state |
| PromiseLaws.FinallyVoidDropsValue | Promise.h:238-260 | as written, Resolve(v).finally(h) with a void h leaves the continuation a null state, and then() on it throws "state is null" |
| PromiseLaws.FinallyPassThroughOnPending | Promise.h:238-260 | corrected finally on any Pending parent appends a child with no handles (nothing else changes), which takes the parent's state when it is later resolved with v or rejected with e, whatever was registered before it |
| PromiseLaws.FinallyPassesState | Promise.h:238-260 | corrected finally on a Resolved or Rejected parent: the continuation has no handles and holds the parent's state; no crash, no other promise changes |
| PromiseLaws.FinallyPassesValue | Promise.h:238-260 | corrected finally on a Resolved parent: the continuation holds the parent's state, so a following then(f) runs f on v |
| PromiseLaws.ChainOnWaitingChildThrows | Promise.h:146-150 | then, then(h), _catch and finally on that child throw "state is null" |
| PromiseLaws.PendingThenRunsOnSettlement | Promise.h:41-60 | on any Pending parent, a later resolve(v) runs the new continuation's resolver on v, and reject(e) its rejecter on e, whatever continuations were registered before it |
| PromiseLaws.ThenOnSettled | Promise.h:166-171 | on a settled parent, an unregistered child bound to the matching handler, already run; the parent is unchanged |
| PromiseLaws.ThenResolvedDropsRejection | Promise.h:188-200 | then(h) on a Rejected parent gives nullptr and changes nothing |
| PromiseLaws.CatchAsWrittenSkipsRejection | Promise.h:228-236 | as written, _catch on a Rejected parent gives nullptr and never runs |
| PromiseLaws.CatchAsWrittenRunsOnValue | Promise.h:228-236 | as written, _catch on a Resolved parent runs the handler with noerr |
| PromiseLaws.CatchPassesValue | Promise.h:228-236 | corrected _catch passes a resolved value through |
| PromiseLaws.CatchHandlesRejection | Promise.h:228-236 | corrected _catch runs the handler with the parent's reason |
| PromiseLaws.FinallyOnRejectedCrashes | Promise.h:238-260 | finally on a Rejected parent dereferences the null value |
| PromiseLaws.AwaitResolved | Promise.h:582-598 | await(Resolve(v)) gives v |
| PromiseLaws.AwaitRejectedAsWritten | Promise.h:437-443 | as written, await(Reject(Promise_Error("IUPUI"))) reports "std::exception" |
| PromiseLaws.AwaitRejected | Promise.h:582-598 | corrected, await(Reject(e)) throws e |
| PromiseLaws.ExecuteLastWins | Promise.h:41-69 | after a callback, the promise holds what its last call gave it |
| PromiseLaws.AwaitAfterCallback | Promise.h:582-598 | a callback's resolve(v) awaits to v; its reject(e) awaits to e, or to "std::exception" as written |
| PromiseLaws.ResolvedChainSkipsCatch | Promise.h:228-236 | Resolve(v)._catch(g).then(f) runs f on v |
| PromiseRuntime.Runtime.constructor | Promise.h:112-120 | no promises and the counter at 0 |
| PromiseRuntime.Runtime.StateOf | Promise.h:262-264 | get_state() |
| PromiseRuntime.Runtime.NewPromise | Promise.h:112-120 | ends in PromiseSpec.NewPromise |
| PromiseRuntime.Runtime.CreatePending | Promise.h:112-120 | Promise(): a new promise with no state and no handles |
| PromiseRuntime.Runtime.CreateBound | Promise.h:277-293 | ends in PromiseSpec.Bound |
| PromiseRuntime.Runtime.Settle | Promise.h:409-434 | ends in PromiseSpec.Settle; nodes unchanged |
| PromiseRuntime.Runtime.WithResolveHandle | Promise.h:354-379 | ends in PromiseSpec.WithHandle on the resolve handle |
| PromiseRuntime.Runtime.WithRejectHandle | Promise.h:381-403 | ends in PromiseSpec.WithHandle on the reject handle |
| PromiseRuntime.Runtime.Adopt | Promise.h:360-378 | adopt the returned promise's state or end the chain |
| PromiseRuntime.Runtime.Resolve | Promise.h:315-325 | ends in PromiseSpec.Resolve |
| PromiseRuntime.Runtime.Reject | Promise.h:327-337 | ends in PromiseSpec.Reject |
| PromiseRuntime.Runtime.NotifyChildren | Promise.h:322-324 | the loop ends in PromiseSpec.Notify |
| PromiseRuntime.Runtime.Then | Promise.h:146-174 | ends in PromiseSpec.Then |
| PromiseRuntime.Runtime.Register | Promise.h:164-165 | ends in PromiseSpec.Register |
| PromiseRuntime.Runtime.ThenHandle | Promise.h:214-225 | ends in PromiseSpec.ThenHandle |
| PromiseRuntime.Runtime.ThenResolved | Promise.h:176-201 | ends in PromiseSpec.ThenResolved |
| PromiseRuntime.Runtime.ThenLambda | Promise.h:203-226 | ends in PromiseSpec.ThenLambda |
| PromiseRuntime.Runtime.CatchAsWritten | Promise.h:228-236 | ends in PromiseSpec.CatchAsWritten (handler in the resolve slot, as written) |
| PromiseRuntime.Runtime.Catch | Promise.h:228-236 | ends in PromiseSpec.Catch (corrected: handler in the reject slot) |
| PromiseRuntime.Runtime.Finally | Promise.h:238-260 | ends in PromiseSpec.Finally (as written) |
| PromiseRuntime.Runtime.FinallyPassThrough | Promise.h:238-260 | ends in PromiseSpec.FinallyPassThrough (corrected: the parent's state passes through) |
| PromiseRuntime.Runtime.SettlementResolve | Promise.h:41-51 | ends in PromiseSpec.SettlementResolve |
| PromiseRuntime.Runtime.SettlementReject | Promise.h:53-60 | ends in PromiseSpec.SettlementReject |
| PromiseRuntime.Runtime.SettlementRejectMessage | Promise.h:62-69 | ends in PromiseSpec.SettlementRejectMessage |
| PromiseRuntime.Runtime.CreateWithExecutor | Promise.h:602-608 | the loop over the callback's calls ends in PromiseSpec.WithExecutor |
| PromiseRuntime.Runtime.ResolveNow | Promise.h:445-454 | ends in PromiseSpec.ResolveNow |
| PromiseRuntime.Runtime.RejectNowAsWritten | Promise.h:437-443 | ends in PromiseSpec.RejectNowAsWritten (as written: the reason is "std::exception") |
| PromiseRuntime.Runtime.RejectNow | Promise.h:437-443 | ends in PromiseSpec.RejectNow (corrected: the reason is e) |

## Left out

- Threads, mutexes, `condition_variable`, `Join`, `_withSettleHandle` and the destructor join (Promise.h:133-144, 310-348, 405-407): handlers run as direct calls. A `std::terminate` on reassigning a joinable `_th` is therefore not modelled.
- `all` and `hash` (Promise.h:456-577): their result order and their "first rejection" depend on thread scheduling.
- `Pool`: `memory_pool->allocate` is fresh object creation.
- The type-level machinery of Lambda.h (`lambda_traits`, `enable_if`, Lambda.h:10-34). A `finally` handler that takes no argument would not compile against it, so handlers always take one.
- The `call(IPromise*)` form of both adapters (Lambda.h:109, 147): it is a no-op.
- `SettlementLambda` and `create_settlement_lambda`: a settlement callback is the sequence of resolve/reject calls it makes.
- Handlers that throw: an exception escaping a handler's thread ends the program.
- Settlement.h (a duplicate of Promise.h:29-100 without the null guards), IPromise.h and source.cpp are not part of this model.
- `free_pool`, `is_multiple8`, the `printf` logging and the `malloc` failure paths of init_slab_allocator: a failed `malloc` is not modelled.
- A NULL allocator passed to init_slab_allocator, to alloc_mem (which then returns NULL, Slab_Allocator.cpp:276-280) or to free_mem (which then returns -1, Slab_Allocator.cpp:350-354): the model always has an allocator object, so SlabSpec.AllocMem, SlabSpec.FreeMem and the Allocator methods do not model these guards.
- The exabyte `exit` is shown unreachable rather than modelled (SlabAllocator.AllSizeBelowExabyte).
- The contents of the slab and chunk records inside the pool bytes: records are objects, and only the pool space they take is accounted for.
- PromiseErrors.StdExceptionWhat: the text `what()` gives for a plain `std::exception` is implementation-defined. The model uses the libstdc++ text "std::exception".
- PromiseSpec.Then, PromiseSpec.ThenHandle, PromiseSpec.ThenResolved, PromiseSpec.ThenLambda, PromiseSpec.CatchAsWritten, PromiseSpec.Catch, PromiseSpec.Finally, PromiseSpec.FinallyPassThrough: their own contracts cover the null guards, the nullptr result and the id of the new promise. What they register on a Pending parent and what they bind and run on a settled one are stated by the PromiseLaws lemmas named after them (`…OnPending`, `…OnResolved`, `…OnSettled` and the rows above).
- PromiseSpec.FinallyPassThrough: the handler of the corrected finally is a pure function, so calling it has no effect and the model does not store it; its side effects are not modelled.
- SizeClasses.ClosestChunkSize, SlabAllocator.Allocator.PickSlab: require num_bytes ≥ 0. For a negative num_bytes, the comparison `num_bytes > csize` (Slab_Allocator.cpp:225) converts num_bytes to a huge size_t. get_chunk_size (Slab_Allocator.cpp:18-29) has no cap, so csize keeps growing past 573760 (717200, …) until `1.25 * last_class_size` (Slab_Allocator.cpp:20) no longer fits in a size_t, where the conversion back to size_t is undefined behaviour. This path is not modelled. alloc_mem refuses num_bytes ≤ 0 before it calls pick_slab, so the allocator never reaches this path.
- SlabAllocator.Allocator.Init: requires that the slab count fits in an int. number_slab_classes (Slab_Allocator.cpp:34-40) returns the count as an int, which truncates for pools of 2^31 MB or more. That truncation is not modelled.
- await: the wait for the promise's thread is not modelled; await reads the state once everything has run.

## Findings

| source | as written | input that shows it | evidently intended | confidence | as-written member | corrected member |
|---|---|---|---|---|---|---|
| Slab_Allocator.cpp:274-324 | closest_chunk_size saturates at 573760, and alloc_mem then hands out a 573760-byte chunk for any larger request | alloc_mem(alloc, 600000) right after init_slab_allocator | NULL for a request no class can hold, as Slab_Allocator.h:97-99 promises "room for specified number of bytes" | not executed | SlabSpec.AllocMemOversizeAfterInit | SlabSpec.AllocMemCheckedFits |
| Promise.h:228-236 | _catch passes its RejectedLambda to then(ILambda*), which puts it in the resolve slot; on a Rejected promise it returns nullptr without running, and on a Resolved one it runs with "NO ERR" | Reject(Promise_Error("IUPUI"))->_catch(h), as in Tests/Promise_Tests.cpp:225-239 | the handler in the reject slot, running on the rejection | not executed | PromiseLaws.CatchAsWrittenSkipsRejection | PromiseLaws.CatchHandlesRejection |
| Promise.h:437-443 | Reject takes std::exception by value, so the argument is sliced and the state's reason is "std::exception" | Reject(Promise_Error("IUPUI")) followed by await | the reason carries the argument's message "IUPUI" | not executed | PromiseLaws.AwaitRejectedAsWritten | PromiseLaws.AwaitRejected |
| Promise.h:238-260 | finally wraps its handler in a ResolvedLambda and binds it to the parent, so the continuation takes the handler's result instead of the parent's state. A void handler leaves a null state, and on a Rejected parent the handler dereferences the null value | Resolve(10)->finally(h) with a void h, then then(f) | the parent's value or reason passes through to the continuation unchanged once the handler has run | not executed | PromiseLaws.FinallyVoidDropsValue | PromiseLaws.FinallyPassesValue |
| Promise.h:582-598 | `throw s->get_reason()` throws a copy of the static type std::exception, so what() is "std::exception" | a callback calling reject(std::logic_error("nyalia")), then await, as in Tests/Promise_Tests.cpp:109-120 | await throws the stored reason, "nyalia" | not executed | PromiseLaws.AwaitAfterCallback | PromiseSpec.Await |
