# jlrs core in Dafny

This project is a Dafny model of the core of jlrs, a Rust library that embeds the Julia language engine. It covers four parts of the library and proves properties about each of them.

- **Envelopes** (`Envelopes.dfy`, after `jlrs/src/async_util/internal.rs`). The async runtime hands work to its Julia thread in envelopes.
  - A *pending task* pairs a task with the one-shot sender of its result.
  - The task, register, blocking, include and error-colour envelopes run user code on a base GC frame. Each sends the outcome exactly once.
  - The persistent envelope does three things in order:
    1. It runs `init` and sends the handle.
    2. It serves the requests of its channel in arrival order, threading a state from one `run` to the next, each on a frame reconstructed at the same offset.
    3. It runs `exit` when the channel closes.
- **Futures** (`Futures.dfy`, after `jlrs/src/async_util/future.rs`). A future waits on a Julia task through a state shared by three parties behind a mutex.
  - The parties are the constructor, which stores the scheduled task, `poll`, and the engine's `wake_task`.
  - Each critical section is one atomic step, so any interleaving is a sequence of steps.
  - A panic while the guard is held poisons the mutex.
- **Module bindings** (`ModuleBindings.dfy`, after `jlrs/src/wrappers/ptr/module.rs`). These are the lookups in a module's global binding table (`global`, `submodule`, `function` and their `_ref`/`leaked_` forms) and its updates (`set_global`, `set_const`), each with its error.
- **Layout** (`Layout.dfy`, after `jl_sys/src/lib.rs`). These are the word arithmetic of the low-level bindings:
  - alignment rounding;
  - type tags read from an object's header;
  - the generational write barrier;
  - the store into an array of pointers;
  - the extra dimension words of an array;
  - field descriptors of 8, 16 and 32 bits.

A 64-bit target is modelled: `usize` and pointers are words below 2^64. Bitwise `&` and `!` are defined on natural numbers, bit by bit, and the masks used are proved equal to the arithmetic they stand for.

How the model is shaped:
- Code the Rust source runs on the engine's side becomes a parameter of the model:
  - user `init`, `run` and `register` bodies, blocking closures, `include` and the colour update are functions from the offset of the frame they are given (and their other inputs) to their result and the number of roots they leave;
  - `exit` is not a parameter: the trace records only that it ran, on which frame offset and state;
  - `fetch` is a function from a task to its result or exception;
  - the scheduling call (`asynccall`) is given by its outcome, a `Result` value.
- The GC stack has two abstractions. In the envelopes it is a size counter, since they only reconstruct and drop frames at recorded offsets. In the module bindings a frame is the sequence of roots it holds, since the lookups' contracts say which values are rooted.
- Panics are modelled in one of two ways:
  - as `None`/`Panicked` where the guard is the point (the field-index assertions, the pointer-array assertion, a poisoned mutex);
  - as a `requires` where the calling code never reaches them: a request's input is taken once because the loop calls `input()` once per request (internal.rs:351), and a one-shot sender is consumed by its only send.

## Model

| member | source | states |
|---|---|---|
| Envelopes.CallPersistentTask.Input | jlrs/src/async_util/internal.rs:141-143 | returns the stored input and leaves the slot empty, so the input is taken at most once |
| Envelopes.CallPersistentTask.Respond | jlrs/src/async_util/internal.rs:137-139 | forwards the result unchanged to the request's own sender |
| Envelopes.Receiver.Recv | jlrs/src/async_util/internal.rs:345-348 | yields the oldest request and removes it, or reports the closed and empty channel without change |
| Envelopes.NewPending | jlrs/src/async_util/internal.rs:190-205 | a pending task built from a task carries one, so `split` accepts it (its round trip is `SplitNewRoundTrip`) |
| Envelopes.NewRegister | jlrs/src/async_util/internal.rs:207-244 | a register pending task (async or persistent) carries no task, only its sender |
| Envelopes.SplitNewRoundTrip | jlrs/src/async_util/internal.rs:167-244 | `split` of a newly built pending task gives back its task and sender; `sender` of a register task gives back its sender |
| Envelopes.Split | jlrs/src/async_util/internal.rs:181-207 | `split` gives the task and the sender from which `new` builds the same pending task again |
| Envelopes.SenderOf | jlrs/src/async_util/internal.rs:223-243 | `sender` of a register task gives the sender from which `new` builds the same register task again |
| Envelopes.RunOnBaseFrame | jlrs/src/async_util/internal.rs:262-269 | user code runs on a frame at offset 0, and the stack is empty again afterwards whatever the code rooted |
| Envelopes.CallTask | jlrs/src/async_util/internal.rs:257-272 | the sender receives exactly the task's `run` result on the base frame, and the stack is left empty |
| Envelopes.CallRegister | jlrs/src/async_util/internal.rs:281-297 | the sender receives exactly `register`'s result on the base frame (the same code serves RegisterPersistent, lines 304-320) |
| Envelopes.CallBlocking | jlrs/src/async_util/internal.rs:406-419 | the sender receives exactly the closure's result on a base frame, and the stack is left empty |
| Envelopes.CallInclude | jlrs/src/async_util/internal.rs:469-482 | the sender receives the outcome of including the task's path on a base frame |
| Envelopes.CallSetErrorColor | jlrs/src/async_util/internal.rs:529-546 | the sender receives the outcome of setting the colour flag on a base frame |
| Envelopes.Serve | jlrs/src/async_util/internal.rs:344-354 | serving n requests takes 3n actions (receive, run, respond) and gives n responses |
| Envelopes.ServeFinal | jlrs/src/async_util/internal.rs:344-357 | the state left after serving equals the index-based reference state after all requests |
| Envelopes.ServeStepAt | jlrs/src/async_util/internal.rs:344-354 | request k is received, then `run` gets the state the k earlier requests left, then the reference's k-th response goes out |
| Envelopes.ServeActions | jlrs/src/async_util/internal.rs:344-354 | the loop only receives, runs at the recorded offset, and responds |
| Envelopes.PersistentTrace | jlrs/src/async_util/internal.rs:328-364 | the envelope's actions start with `init` on offset 0 and the handle; they stop there exactly when `init` fails, and otherwise take 3 per request and end with `exit` |
| Envelopes.PersistentInit | jlrs/src/async_util/internal.rs:338-359 | `init` runs once, first, on the base frame; when it fails, neither `run` nor `exit` is called |
| Envelopes.PersistentHandleFirst | jlrs/src/async_util/internal.rs:338-359 | the handle (or the init error) is sent exactly once, second, before any request is received |
| Envelopes.PersistentServesInOrder | jlrs/src/async_util/internal.rs:344-354 | requests are served in arrival order, the state threaded from one `run` to the next |
| Envelopes.PersistentFramesAndExit | jlrs/src/async_util/internal.rs:342-357 | every `run` and the `exit` start at the stack size recorded after `init`; `exit` runs once, last, on the final state |
| Envelopes.PersistentResponses | jlrs/src/async_util/internal.rs:344-354 | the k-th response is `run` of the k-th input on the state the earlier requests left |
| Envelopes.ServeOne | jlrs/src/async_util/internal.rs:350-353 | one turn: the frame is cut back to the recorded offset and `run` is given that stack size; the request's input is taken, `run` is applied to it on the current state, its result is sent on that request's sender, and the nested frame's roots are popped so the stack ends back at the offset |
| Envelopes.ServeAt | jlrs/src/async_util/internal.rs:350-353 | serving request i answers it and leaves earlier answers and later waiting requests untouched |
| Envelopes.ServeNext | jlrs/src/async_util/internal.rs:344-354 | one iteration of the loop keeps the loop's progress invariant, or ends it exactly when the channel is empty |
| Envelopes.ServeRequests | jlrs/src/async_util/internal.rs:344-355 | the loop ends with the channel drained and the final state of `Serve`, and every request answered with `Serve`'s response |
| Envelopes.CallPersistent | jlrs/src/async_util/internal.rs:328-364 | the envelope does exactly `PersistentTrace`; the handle sender gets `Ok` or the init error; on success every request is answered in order; on failure the queue and every request (its input and its sender) are as they were; the stack ends empty |
| Futures.Step | jlrs/src/async_util/future.rs:525-578 | no step clears `completed` or the task, or unpoisons the mutex; a step panics exactly on a poisoned lock (other than in `wake_task`) or on a completed state without a task |
| Futures.RunAppend | jlrs/src/async_util/future.rs:525-578 | running two interleavings one after the other is running their concatenation |
| Futures.RunMonotone | jlrs/src/async_util/future.rs:30-35 | over any interleaving `completed` never returns to false, a stored task is never cleared, poisoning is permanent |
| Futures.LiveRun | jlrs/src/async_util/future.rs:552-556 | once the task is stored on an unpoisoned mutex, no event panics and the task stays; the `unreachable!()` branch is unreachable |
| Futures.EarlyWakes | jlrs/src/async_util/future.rs:568-578 | a `wake_task` that comes before the task is stored does not panic or touch the task slot |
| Futures.StoreAfterWakes | jlrs/src/async_util/future.rs:81-87 | after any early wakes, the constructor's store leaves a live state holding the task |
| Futures.Constructed | jlrs/src/async_util/future.rs:42-90 | in every interleaving the program allows, starting from the fresh state, nothing panics and the stored task stays |
| Futures.ReadyAfterWake | jlrs/src/async_util/future.rs:527-551 | after completion every poll is Ready with `fetch` of the stored task |
| Futures.RegisteredWakerWoken | jlrs/src/async_util/future.rs:557-578 | once a waker is registered, polls stay Pending and keep it until `wake_task`, which wakes exactly that waker and leaves the state completed with no waker |
| Futures.FirstWakerKept | jlrs/src/async_util/future.rs:557-561 | a second poll before completion does not replace the first stored waker, so a later poll's waker is never woken (the `Future` contract asks for the most recent one; a single polling task is unaffected) |
| Futures.SharedTaskState.constructor | jlrs/src/async_util/future.rs:46-51 | the shared state starts not completed, with no waker and no task |
| Futures.SharedTaskState.StoreTask | jlrs/src/async_util/future.rs:81-87 | stores the task, or panics on a poisoned lock with nothing changed |
| Futures.SharedTaskState.Poll | jlrs/src/async_util/future.rs:525-563 | completed: Ready with `fetch` of the task, state untouched; not completed: Pending, storing the waker only if none is stored |
| Futures.SharedTaskState.Wake | jlrs/src/async_util/future.rs:568-578 | sets `completed`, takes and returns the waker to wake; on a poisoned lock changes nothing and wakes nothing |
| Futures.JuliaFuture.New | jlrs/src/async_util/future.rs:42-90 | no future when scheduling throws; otherwise a fresh future whose state holds the task, not completed, with no waker |
| Futures.JuliaFuture.Poll | jlrs/src/async_util/future.rs:525-563 | a poll is one step on the future's shared state |
| ModuleBindings.GlobalRef | jlrs/src/wrappers/ptr/module.rs:230-248 | succeeds exactly for a bound name, with its value; otherwise `GlobalNotFound` naming the symbol and the module |
| ModuleBindings.SubmoduleRef | jlrs/src/wrappers/ptr/module.rs:138-154 | succeeds exactly when the name is bound to a module; otherwise `NotAModule` |
| ModuleBindings.FunctionRef | jlrs/src/wrappers/ptr/module.rs:300-316 | succeeds exactly when the name is bound to a function; an unbound name gives `global_ref`'s error, a non-function gives `NotAFunction` with its type name |
| ModuleBindings.LeakedGlobal | jlrs/src/wrappers/ptr/module.rs:252-271 | succeeds exactly for a bound name; otherwise `FunctionNotFound` |
| ModuleBindings.LeakedFunction | jlrs/src/wrappers/ptr/module.rs:320-325 | like `leaked_global`: any bound value is returned, with no function test |
| ModuleBindings.Bind | jlrs/src/wrappers/ptr/module.rs:159-175 | the name is bound to the value and every other binding is unchanged |
| ModuleBindings.SetConstOn | jlrs/src/wrappers/ptr/module.rs:178-202 | a bound name is refused with `ConstAlreadyExists` and the table unchanged; otherwise the name is bound |
| ModuleBindings.LookupAfterBind | jlrs/src/wrappers/ptr/module.rs:159-175 | after `set_global`, a lookup of the name yields the new value, and lookups of other names are unchanged |
| ModuleBindings.BindOverwrites | jlrs/src/wrappers/ptr/module.rs:159-175 | the second of two `set_global`s on one name wins; rebinding a name to its own value changes nothing |
| ModuleBindings.SetConstOnce | jlrs/src/wrappers/ptr/module.rs:178-202 | after a successful `set_const`, a second one on the name fails and the first value stays |
| ModuleBindings.LookupsAgree | jlrs/src/wrappers/ptr/module.rs:111-325 | a successful submodule or function lookup agrees with `global_ref`; no name is both; `leaked_global` finds exactly what `global_ref` finds |
| ModuleBindings.JuliaModule.Global | jlrs/src/wrappers/ptr/module.rs:206-226 | returns `global_ref`'s answer and roots the value in the frame on success only |
| ModuleBindings.JuliaModule.Submodule | jlrs/src/wrappers/ptr/module.rs:111-131 | returns `submodule_ref`'s answer and roots the module on success only |
| ModuleBindings.JuliaModule.Function | jlrs/src/wrappers/ptr/module.rs:275-296 | returns `function_ref`'s answer; a bound value is rooted even when it is not a function |
| ModuleBindings.JuliaModule.SetGlobal | jlrs/src/wrappers/ptr/module.rs:159-175 | the module's table becomes `Bind` of the old one, and the value is returned |
| ModuleBindings.JuliaModule.SetConst | jlrs/src/wrappers/ptr/module.rs:178-202 | the table and result are `SetConstOn` of the old table: refused with nothing changed when bound, bound otherwise |
| Layout.LltAlign | jl_sys/src/lib.rs:28-30 | for a power of two sz, the result is a multiple of sz that is at most the wrapped `x + sz - 1` and within sz of it |
| Layout.LltAlignRoundsUp | jl_sys/src/lib.rs:28-30 | for a power of two sz and no overflow, the result is the least multiple of sz at or above x |
| Layout.LltAlignIdempotent | jl_sys/src/lib.rs:28-30 | aligning an aligned value returns it unchanged |
| Layout.LltAlignWrapsAtTop | jl_sys/src/lib.rs:28-30 | at the top of the address space a build without overflow checks wraps the sum and gives 0, below x (a build with them panics) |
| Layout.SymbolName | jl_sys/src/lib.rs:106-109 | the name starts right after the 24-byte symbol header, at a pointer-aligned offset |
| Layout.AsTaggedValue | jl_sys/src/lib.rs:33-38 | the header word sits 8 bytes in front of the object (below 8, wrapping as a build without overflow checks does) |
| Layout.TypeOf | jl_sys/src/lib.rs:41-43 | the header with exactly its low four bits cleared: a multiple of 16, at most the header and within 16 of it |
| Layout.BarrierQueues | jl_sys/src/lib.rs:100 | queues exactly when the parent's gc bits are 3 and the child's lowest gc bit is clear |
| Layout.BarrierQueued | jl_sys/src/lib.rs:96-103 | the barrier queues the parent, once, exactly when the parent is old and marked and the child is not marked |
| Layout.GcHeap.WriteBarrier | jl_sys/src/lib.rs:96-103 | appends to the queued roots exactly what `BarrierQueued` gives |
| Layout.PtrSetQueued | jl_sys/src/lib.rs:195-201 | the intended barrier of the second Findings row (for `how == 3` the owner is loaded from its slot, where the source passes the slot's address): a null store queues nothing; a non-null store queues the barrier parent (the owner for an owned buffer, the array otherwise), once, exactly when the parent's gc bits are 3 and x's lowest gc bit is clear, and nothing else |
| Layout.PtrSetBarrierOnOwner | jl_sys/src/lib.rs:195-201 | with an owned buffer the barrier tests and queues the data owner |
| Layout.ArrayPtrSet | jl_sys/src/lib.rs:188-205 | the intended store of the second Findings row (for `how == 3` the barrier runs on the owner loaded from its slot, where the source passes the slot's address): on a pointer array stores x in slot i only, runs the owner's or array's barrier for non-null x and returns x; otherwise the assertion fails and nothing changes |
| Layout.DataOwnerAsWritten | jl_sys/src/lib.rs:65-69 | the result is the address `ownerOffset` bytes into the array (wrapping at 2^64), with no load of the owner stored there |
| Layout.PtrSetQueuedAsWritten | jl_sys/src/lib.rs:65-69 | the barrier as written: it queues the owner slot's address (or the array), exactly under the barrier condition read at that address |
| Layout.MissedBarrierAsWritten | jl_sys/src/lib.rs:65-69 | a concrete store where the owner should be queued and the code as written queues nothing |
| Layout.NdimWords | jl_sys/src/lib.rs:87-93 | 0 below 3 dimensions, n - 2 up to `i32::MAX`, always within `i32` |
| Layout.NdimWordsForArrayRank | jl_sys/src/lib.rs:87-93 | for every 16-bit rank the count is never negative and is the number of dimensions beyond two |
| Layout.NdimWordsWrapsAboveI32Max | jl_sys/src/lib.rs:87-93 | above `i32::MAX` the cast wraps and the count turns negative |
| Layout.FielddescSize | jl_sys/src/lib.rs:112-114 | `2 << t` fits in 32 bits and is the descriptor size (2, 4 or 8 bytes) for each of the three kinds |
| Layout.DescAt | jl_sys/src/lib.rs:134-179 | descriptor i is read from its bytes at the width the kind selects: type 0 gives size `b0 / 2` and offset `b1`; type 1 size `(b0 + 256 b1) / 2` and offset `b2 + 256 b3`; any other kind the 32-bit little-endian members; isptr is the lowest bit of `b0` |
| Layout.FieldIsptr | jl_sys/src/lib.rs:117-131 | defined exactly for in-range indices; reading the first byte at stride `jl_fielddesc_size` agrees with the decoded descriptor's isptr bit at all three widths |
| Layout.FieldSize | jl_sys/src/lib.rs:134-154 | under the intended guard of the first Findings row (`0 <= i < nfields` on the full index, where the source truncates the index to 32 bits): defined exactly for in-range indices; the size is the first member of descriptor i at 8, 16 or 32 bits (types 0, 1, anything else) without its isptr bit |
| Layout.FieldOffset | jl_sys/src/lib.rs:157-180 | under the intended guard of the first Findings row (`0 <= i < nfields` on the full index, where the source truncates the index to 32 bits): defined exactly for in-range indices; the offset is the second member of descriptor i at 8, 16 or 32 bits (types 0, 1, anything else) |
| Layout.DescAtEncoded | jl_sys/src/lib.rs:134-179 | decoding descriptor i of descriptors laid out at any of the four kinds gives descriptor i back |
| Layout.FieldQueriesReadEncoded | jl_sys/src/lib.rs:117-179 | on laid-out descriptors the queries return each field's own size, offset and isptr bit for in-range indices, and the failed assertion otherwise |
| Layout.TruncatedGuardAdmitsOutOfRange | jl_sys/src/lib.rs:139 | the guard as written lets index 2^32 through on any layout with a field, though it is out of range |
| Layout.GetFieldtypes | jl_sys/src/lib.rs:72-79 | the cached field types when present, the computed ones when none are cached, and so null only when both are null |
| Layout.GetFieldtypesCacheFirst | jl_sys/src/lib.rs:72-79 | with cached types the answer does not depend on the engine's computation; without them it is that computation |

## Left out

- Engine calls that run user or engine code are parameters of the model, not models of their own. This covers `init`, `run`, `register`, blocking closures, `include`, the colour flag update, `asynccall`/`scheduleasync`/`postblocking` (through their outcome) and `fetch`. Their effects inside the engine (and the include envelope skipping a non-UTF-8 path) are not modelled.
- The engine's binding table and root queue are modelled as data. `jl_get_global` is a lookup in a finite map from names to values; a name outside it is unbound (`jl_get_global` returns null); `jl_set_global` and `jl_set_const` are updates of that map (`ModuleBindings.Bind`, `ModuleBindings.SetConstOn`), and `jl_gc_queue_root` appends to the queued roots (`Layout.GcHeap.WriteBarrier`).
- The engine's own failure paths of `jl_set_global` and `jl_set_const` are not modelled, for example the engine refusing an assignment to a binding that is already constant. In the model `set_global` always binds, and `set_const` fails only through jlrs's own check for an existing binding.
- `exit`'s own result and the roots it pushes are not recorded. The trace records only that `exit` ran, where, and on which state.
- Creating the persistent task's channel and its capacity are left out. The receiver is given the requests that arrive before the channel closes, as a sequence.
- Real thread interleaving, `Arc` reference counting, `Arc::into_raw`/`from_raw` and `Waker` semantics are left out. Each mutex section is one atomic step, and a woken waker is reported as a reply.
- The constructors `new_interactive`, `new_local`, `new_main`, `new_posted` and the `*_with_keywords` forms are left out. They are the same protocol with another scheduling function, so `JuliaFuture.New` stands for all of them, with the scheduling outcome as its parameter.
- Futures.JuliaFuture.New: does not model a `wake_task` that runs between scheduling and storing the task inside the constructor. That interleaving is covered by `Futures.Constructed` and `Futures.EarlyWakes` at the level of steps.
- Futures.SharedTaskState.Poll: a panic of the `fetch` lookup (`.unwrap()` on `Base.fetch`) while the guard is held is not modelled; the lookup is assumed to succeed.
- The GC stack, frames, `AsyncGcFrame::base`, `reconstruct` and dropping the owner are modelled only as a size counter.
- The allocation failure of `push_root` is left out. Rooting always succeeds.
- Non-UTF-8 symbol names (the `"<Non-UTF8 symbol>"` fallback in error messages) are left out. Names are strings.
- Julia's type test (`jl_typeis`, `is::<Function>`) is reduced to the kind of the bound value.
- Layout is modelled only for a 64-bit target (8-byte header word, 24-byte symbol header, 8-byte pointers).
- Overflow of `usize` and `i32` arithmetic is modelled as wrapping, as a build without overflow checks computes it. This covers `x + sz - 1` in `llt_align`, `v - 8` in `jl_astaggedvalue`, and the subtraction in `ndims as i32 - 2` for ndims 2^31 and 2^31 + 1. With overflow checks on, those inputs panic instead. `Layout.LltAlignWrapsAtTop` and `Layout.AsTaggedValue` below 8 describe the wrapping build. The `as i32` cast itself wraps in every build, so `Layout.NdimWordsWrapsAboveI32Max` holds in both.
- Layout.FieldIsptr: requires `fielddesc_type` at most 2. For the two-bit value 3, which the engine never sets, `jl_field_isptr` steps 16 bytes per field (`2 << 3`) while the size and offset queries read 8-byte descriptors, so there is no descriptor of its own to agree with.
- `jlrs_array_data_owner_offset`, `jl_compute_fieldtypes` and `jl_array_data` are C functions outside this model. The owner offset and the computed field types are inputs, and the data is an `array` of words.
- Layout.ArrayPtrSet: requires `i` to be within the array. `jl_array_ptr_set` (lib.rs:192) does no bounds check, so an in-range index is the caller's safety obligation, and an out-of-range store is undefined behaviour that the model does not describe.
- The relaxed atomic ordering of the slot store in `jl_array_ptr_set` is left out. The store is a plain array update.

## Findings

| source | as written | input that shows it | evidently intended | confidence | as-written member | corrected member |
|---|---|---|---|---|---|---|
| jl_sys/src/lib.rs:139 | `jl_field_size` (and `jl_field_offset`, line 159) test `i >= 0 && (i as u32) < nfields` for an `isize` index, and the cast keeps only the low 32 bits | i = 2^32 on a layout with nfields = 1: the guard passes, and descriptor 2^32 is read past the end | `0 <= i < nfields` on the full index | not executed | Layout.TruncatedGuardAdmitsOutOfRange | Layout.FieldSize, Layout.FieldOffset |
| jl_sys/src/lib.rs:65-69 | `jl_array_data_owner` returns the address of the owner slot, `a + offset`, not the pointer stored there | an array at 0x1000 with `how == 3`, owner slot 0x1028 holding owner 0x2000 (old and marked), storing young 0x3000: the barrier reads the word in front of the slot and queues nothing, where the owner should be queued | the owner pointer loaded from the slot, as the engine's own header defines it | not executed | Layout.MissedBarrierAsWritten | Layout.PtrSetBarrierOnOwner, Layout.PtrSetQueued, Layout.ArrayPtrSet |
