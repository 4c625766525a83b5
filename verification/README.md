# Torvyn: buffer ownership, linking and configuration, verified

A Dafny model of the parts of Torvyn that decide something: who owns a payload buffer at every moment of a
flow, which pipelines may be linked, and what the configuration helpers compute.

- `wrappers.dfy`: `Option` and `Min`.
- `slab.dfy`, `manager_spec.dfy`, `manager.dfy`, `manager_runs.dfy`: the resource manager. The generational
  slab and the manager are classes updated in place; `ManagerSpec` says what each operation does to the state
  as a value, and `ManagerRuns` when reverse indices and budgets stay exact.
- `manager_meaning.dfy`: what each operation of the manager answers and leaves, said of the state before it.
- `pool.dfy`: a buffer pool tier, a lock-free stack with a tagged head, under every interleaving of its threads.
- `host_spec.dfy`, `host_state.dfy`: the host functions a guest calls, over a per-store handle table.
- `invoker_spec.dfy`, `invoker.dfy`, `fuel.dfy`: a guest call from the host's side, and its fuel.
- `protocol.dfy`, `protocol_runs.dfy`, `protocol_payload.dfy`, `protocol_calls.dfy`, `protocol_reap.dfy`: one
  manager, any number of stores, every interleaving of guest operations, host steps, cancellations and discards.
- `flow_driver.dfy`: the calls of the flow driver on stores updated in place, as runs of that protocol, from a new
  manager to the clean-up of a flow.
- `host_meaning.dfy`: what each host function answers its guest and leaves, in every state the protocol reaches.
- `stage_calls.dfy`, `pipeline_run.dfy`: the fixture components as guest programs and the copy law of whole runs.
- `edit_distance.dfy`, `unknown_field.dfy`: suggestions for misspelled configuration keys.
- `env.dfy`, `sizes.dfy`, `cache.dfy`: environment interpolation, size parsing, the compiled-component cache.
- `compatibility.dfy`, `compatibility_report.dfy`, `compatibility_laws.dfy`, `compatibility_clients.dfy`: the WIT
  compatibility checker, what it reports, and what its verdicts mean.
- `cycle_search.dfy`, `pipeline_validation.dfy`: link-time pipeline validation.
- `topology.dfy`, `import_resolution.dfy`: the linker's graph, import resolution and linking.

Code that works in place is a class or a method with loops, proved equal to a function on values; the laws are
lemmas about those functions. A hash map's iteration order is an arbitrary choice, so what is proved holds for
every order. A guest call is any sequence of host functions with any arguments, ended by success, guest error or
trap. Two things are asked of guests, both of which the component model enforces: everywhere, that a borrowed handle
is not dropped; and for what becomes of cancelled calls, that a borrowed input is not returned as an output.

Where the code does less than its documentation says, a member states exactly when:

- An occupied slot's generation is at least one, and stale handles are detected, until a slot has been reused
  2^32 times (`Slab.StaleHandleDetection`, `Slab.StaleHandleIsAccepted`).
- A component's charged bytes are the bytes it owns unless the pool ran out of memory after the reservation, a
  transfer to a registered component was refused after charging it, a buffer went to `Transit`, the component was
  registered again while owning buffers, or a charge wrapped (`ManagerRuns.OperationKeepsConsistency`).
- Each pooled buffer is free or out once until a `pop` swaps in a link it read a multiple of 2^32 swings of the head
  ago, and that link has changed (`Pool.RunKeepsPool`, `Pool.ParkedPopHandsOutTwice`).
- A buffer has the capacity recorded for it unless the request is past the largest tier and that tier has a pooled
  buffer, which it never has when it pre-allocates none, as by default (`Pool.RightConfigurations`).
- Every flow numbers its components from one, and the clean-up of a flow takes every buffer owned by a component of
  those numbers. It takes buffers of another flow exactly when such a component owns one
  (`ManagerRuns.OtherFlowsSurviveExactly`, `ProtocolReap.ReapTakesTheOtherFlowsBuffer`).
- A call that times out is dropped before its input is reclaimed, so the input's buffer stays live until the flow
  is reaped (`ProtocolCalls.InputOutlivesExactlyCancelledCalls`, `ProtocolCalls.CancelledInputIsNeverReclaimed`).
- The benchmark's byte total holds for payload sizes from 8 bytes to 16 MiB, because the echo source clamps
  (`PipelineRun.ValidateHolds`).
- The compatibility checker compares neither the names of a flags type, nor the target of an alias, nor added
  resources (`CompatibilityClients.UpgradesKeepClients`).
- Serde messages are read back unless a key has a quote or a line feed in it (`UnknownField.RoundTrip`).
- A component that does not compile is compiled again at every request (`Cache.CompiledComponentCache.RunAll`).
- The manifest's size parser multiplies unchecked: sixteen exbibytes are read as zero (`Sizes.OverflowsExactly`,
  `Sizes.SixteenExbibytesIsZero`).

## Model

| member | source | states |
|---|---|---|
| `Slab.ResourceTable.Grow` | crates/torvyn-resources/src/table.rs:283-308 | Doubles the slots when the free list is used up, the new ones free in order and never used; refuses exactly when the doubled capacity leaves `u32`, and changes no stored entry |
| `Slab.ResourceTable.Insert` | crates/torvyn-resources/src/table.rs:116-147 | Stores the entry in the first free slot under an id that was not live, whose index is never `u32::MAX` and whose generation is one more insertion into that slot and into no other; reports a full table exactly when every slot is taken and the table cannot double |
| `Slab.ResourceTable.Get` | crates/torvyn-resources/src/table.rs:157-175 | Finds an entry exactly when the id is live, over the free list threaded through the vacant slots |
| `Slab.ResourceTable.Put` | crates/torvyn-resources/src/table.rs:184-202 | Replaces one live entry and nothing else |
| `Slab.ResourceTable.Remove` | crates/torvyn-resources/src/table.rs:214-251 | Returns what a lookup would have and takes exactly that id out; the slot becomes the head of the free list and keeps its generation |
| `Slab.Use` | crates/torvyn-resources/src/table.rs:116-251 | Any sequence of insertions, updates and removals with any handles: each id handed out carries how often its slot was, modulo 2^32 |
| `Slab.StaleHandleDetection` | crates/torvyn-resources/src/table.rs:157-175 | However a table was used, an id it once handed out is accepted exactly when its slot is occupied and a multiple of 2^32 insertions went into the slot since; it is reported not allocated exactly when the slot is vacant, and stale otherwise |
| `Slab.OccupiedGenerationIsZeroExactlyOnWrap` | crates/torvyn-resources/src/table.rs:116-147 | The documented "occupied slots have generation at least one" fails exactly when a multiple of 2^32 of the ids handed out were of the slot |
| `Slab.StaleHandleIsAccepted` | crates/torvyn-resources/src/table.rs:214-251 | The failing input: after 2^32 reuses of a one-slot table an old handle reads the newest entry |
| `Manager.DefaultResourceManager.Allocate` | crates/torvyn-resources/src/manager.rs:112-191 | Over the slab, in place: new state and result are those of `ManagerSpec` for the pool's answer; the id is fresh and not the freeze sentinel, and an allocation fails for want of memory or of a slot only when there is none |
| `Manager.DefaultResourceManager.Release` | crates/torvyn-resources/src/manager.rs:200-241 | New state and result are those of `ManagerSpec`: checked for exclusive ownership, out of both indices, budget credited |
| `Manager.DefaultResourceManager.TransferOwnership` | crates/torvyn-resources/src/manager.rs:250-289 | Through `Transit` and back in two table writes, the state is that of the one-step specification, refused transfers included |
| `Manager.DefaultResourceManager.BorrowStart` | crates/torvyn-resources/src/manager.rs:298-302 | Counts one more borrow of a live buffer, or refuses and changes nothing |
| `Manager.DefaultResourceManager.BorrowEnd` | crates/torvyn-resources/src/manager.rs:307-311 | Counts one borrow less and returns to `Owned` at zero, or refuses and changes nothing |
| `Manager.DefaultResourceManager.ReadPayload` | crates/torvyn-resources/src/manager.rs:323-367 | Bounds-checked bytes of the payload and one host-to-component copy in the ledger |
| `Manager.DefaultResourceManager.WritePayload` | crates/torvyn-resources/src/manager.rs:372-436 | Owner-, state- and capacity-checked write, the payload length raised when it ends further on, one component-to-host copy in the ledger |
| `Manager.DefaultResourceManager.ReclaimFlowBuffers` | crates/torvyn-resources/src/manager.rs:621-672 | The loop over the flow's index in any order amounts to removing all of it and crediting every owner at once |
| `Manager.DefaultResourceManager.ForceReclaim` | crates/torvyn-resources/src/manager.rs:521-576 | The loop over the component's index in any order amounts to removing all of it from table and flow index, and dropping the budget |
| `ManagerSpec.WrappingTwice` | crates/torvyn-resources/src/budget.rs:73-75 | Crediting in two wrapping subtractions is crediting the sum |
| `ManagerSpec.CreditUndoesReservation` | crates/torvyn-resources/src/budget.rs:47-75 | Crediting what was reserved gives back the usage, whether or not the sum wrapped |
| `ManagerMeaning.AllocateAnswers` | crates/torvyn-resources/src/manager.rs:112-191 | Which error an allocation gives and when; a granted one is blank, of the least pool size for the request, and charged to its owner alone |
| `ManagerMeaning.ReleaseAnswers` | crates/torvyn-resources/src/manager.rs:200-241 | Goes through exactly for the sole owner of a buffer nobody borrows; each refusal has its error and changes nothing |
| `ManagerMeaning.TransferAnswers` | crates/torvyn-resources/src/manager.rs:250-289 | Goes through exactly for the sole owner, to a recipient within its limit; only the owner changes; each refusal has its error |
| `ManagerMeaning.BorrowsBalance` | crates/torvyn-resources/src/manager.rs:298-311 | After any order of starts and ends the buffer is lent as often as is under way; none under way is the state before, and until then every release is refused |
| `ManagerMeaning.BorrowAnswers` | crates/torvyn-resources/src/manager.rs:298-311 | A borrow starts on any live buffer and ends exactly on a borrowed one |
| `ManagerMeaning.WriteAnswers` | crates/torvyn-resources/src/manager.rs:372-436 | Each byte of memory, the payload length and the ledger after a write; each refusal has its error and changes nothing |
| `ManagerMeaning.ReadAnswers` | crates/torvyn-resources/src/manager.rs:323-367 | The bytes of the payload, one copy in the ledger, and each refusal |
| `ManagerMeaning.LimitsStay` | crates/torvyn-resources/src/budget.rs:47-75 | No operation but registration changes a component's limit |
| `ManagerMeaning.RegisterAnswers` | crates/torvyn-resources/src/manager.rs:677-686 | Registering a flow again keeps its counts; registering a component sets its limit and no usage |
| `ManagerRuns.AllocateKeeps` | crates/torvyn-resources/src/manager.rs:112-191 | Allocation for any owner keeps indices and budgets exact, except exactly when it charges a registered component and the pool has no memory, or wraps a budget, or goes through for `Transit` |
| `ManagerRuns.TransferKeeps` | crates/torvyn-resources/src/manager.rs:250-289 | Transfer keeps them exact, except exactly when a charged recipient's transfer is then refused or wraps its budget, or the recipient is `Transit` |
| `ManagerRuns.ReleaseKeeps` | crates/torvyn-resources/src/manager.rs:200-241 | Release keeps indices and budgets exact, whether it succeeds or not |
| `ManagerRuns.ReclaimFlowKeeps` | crates/torvyn-resources/src/manager.rs:621-672 | The flow sweep keeps indices and budgets exact and leaves exactly the other flows' buffers |
| `ManagerRuns.ForceReclaimKeeps` | crates/torvyn-resources/src/manager.rs:521-576 | The component sweep keeps them exact and leaves exactly the buffers the component does not own |
| `ManagerRuns.OperationKeepsConsistency` | crates/torvyn-resources/src/manager.rs:112-686 | From exact books every call leaves exact books if and only if it is not one of five named kinds of call |
| `ManagerRuns.Run` | crates/torvyn-resources/src/manager.rs:112-686 | Any run of calls none of which is of those kinds keeps indices and budgets exact throughout |
| `ManagerRuns.OutOfMemoryLeaksReservation` | crates/torvyn-resources/src/manager.rs:112-191 | A concrete component that owns nothing and can never allocate again after one failed allocation |
| `ManagerRuns.ReapFlowIsExact` | crates/torvyn-reactor/src/coordinator.rs:582-604 | Component sweeps for every stage and then the flow sweep remove exactly the flow's buffers, those the stages' components own in any flow, and these components' budgets |
| `ManagerRuns.OtherFlowsSurviveExactly` | crates/torvyn-reactor/src/coordinator.rs:582-604 | All other flows' buffers survive if and only if no component with a reaped stage's id owns one of them |
| `Pool.StepKeepsPool` | crates/torvyn-resources/src/pool.rs:216-297 | From any state in which each slot is on the free list, held or being returned once, a step of `pop` or `push` leaves such a state if and only if it is not a swap of a link that is no longer the top's |
| `Pool.StaleHasComeRound` | crates/torvyn-resources/src/pool.rs:216-249 | Such a swap happens only a positive multiple of 2^32 swings after the head was read |
| `Pool.RunKeepsPool` | crates/torvyn-resources/src/pool.rs:216-297 | Over any interleaving of any threads, spurious failures included, no slot is lost or out twice at any moment if and only if no swap is such a one |
| `Pool.PoolIsSafe` | crates/torvyn-resources/src/pool.rs:159-208 | From a new tier: no slot is ever lost or out twice if no `pop` is parked for 2^32 swings |
| `Pool.ParkedPopHandsOutTwice` | crates/torvyn-resources/src/pool.rs:216-249 | A run from a new tier of four slots in which a parked `pop` makes a held slot the top and the next `pop` hands it out again |
| `Pool.EmptyMeansAllOut` | crates/torvyn-resources/src/pool.rs:216-223 | The list is empty exactly when every slot is held or being returned |
| `Pool.StaysInBounds` | crates/torvyn-resources/src/pool.rs:225-230 | No index leaves the slot array, whatever the interleaving |
| `Pool.RecordedIsThere` | crates/torvyn-resources/src/pool.rs:376-392 | A request gets the capacity the manager records exactly unless it is past the largest tier and that tier has a pooled buffer |
| `Pool.RightConfigurations` | crates/torvyn-resources/src/pool.rs:86-112 | So for every request exactly when the largest tier pre-allocates nothing; two mebibytes are the witness |
| `HostState.HostState.Read` | crates/torvyn-engine/src/host_state.rs:348-365 | The method in place is `HostSpec`: range clamped, copy recorded, manager errors trap |
| `HostState.HostState.ReadAll` | crates/torvyn-engine/src/host_state.rs:367-378 | The method in place is `HostSpec`: the whole payload, no copy when it is empty |
| `HostState.HostState.Drop` | crates/torvyn-engine/src/host_state.rs:380-393 | The wrapper goes; its buffer is released unless the wrapper is what a freeze left |
| `HostState.HostState.Write` | crates/torvyn-engine/src/host_state.rs:397-417 | Offsets past `u32` are refused first, then the manager decides |
| `HostState.HostState.Append` | crates/torvyn-engine/src/host_state.rs:419-435 | Writes at the payload's current end |
| `HostState.HostState.Freeze` | crates/torvyn-engine/src/host_state.rs:462-495 | The sentinel in the old slot and an immutable wrapper with handle and owner in a new one, the manager untouched |
| `HostState.HostState.Allocate` | crates/torvyn-engine/src/host_state.rs:560-581 | Hints past 16 MiB are refused, otherwise a mutable wrapper on a fresh buffer; it fails for want of memory or of a slot only when there is none |
| `HostState.HostState.CloneIntoMutable` | crates/torvyn-engine/src/host_state.rs:583-629 | Read, allocate, write, and give back when the write is refused; it fails for want of memory or of a slot only when there is none |
| `ProtocolPayload.ReadsReturnPayload` | crates/torvyn-engine/src/host_state.rs:348-378 | In every reachable state any wrapper on a buffer reads exactly its payload, or the clamped part of it, and never traps |
| `ProtocolPayload.WriteReplaces` | crates/torvyn-engine/src/host_state.rs:397-417 | For every offset that fits: the data is at its offset, the payload reaches as far as it did or as the data does, before and behind the data it is as it was, and a gap shows the memory that was there; no other buffer changes |
| `ProtocolPayload.AppendExtends` | crates/torvyn-engine/src/host_state.rs:419-435 | An append puts the bytes behind the payload, and fails exactly when they do not fit the capacity |
| `ProtocolPayload.AllocateGives` | crates/torvyn-engine/src/host_state.rs:560-581 | A successful allocation gives an empty buffer of at least the capacity asked for, owned by the component |
| `ProtocolPayload.CloneCopies` | crates/torvyn-engine/src/host_state.rs:583-629 | A clone is a different buffer with the same payload; the source keeps its own |
| `HostMeaning.WriteAnswers` | crates/torvyn-engine/src/host_state.rs:397-435 | Out of bounds past 32 bits, too much past the capacity, and everything else is written, byte by byte, with one copy in the ledger; an append writes at the end |
| `HostMeaning.GapsReadAsZeros` | crates/torvyn-resources/src/manager.rs:372-436 | After any run, a write past the end of a payload leaves zeros in between |
| `HostMeaning.ReadAnswers` | crates/torvyn-engine/src/host_state.rs:348-378 | The part of the payload the range covers, and one copy in the ledger exactly if that is anything |
| `HostMeaning.SizeAnswers` | crates/torvyn-engine/src/host_state.rs:337-343 | Sizes are payload lengths, capacities the length of the memory |
| `HostMeaning.FreezeAnswers` | crates/torvyn-engine/src/host_state.rs:462-495 | The spent mutable wrapper, the new immutable one with its handle and owner, and nothing else |
| `HostMeaning.DropAnswers` | crates/torvyn-engine/src/host_state.rs:380-393 | The slot is free, the buffer gone and its bytes credited, unless a freeze has spent the wrapper |
| `HostMeaning.AllocateAnswers` | crates/torvyn-engine/src/host_state.rs:560-581 | Each error with its cause, or a blank buffer of the least size for the hint, owned by the component |
| `HostMeaning.CloneAnswers` | crates/torvyn-engine/src/host_state.rs:583-629 | Each error with its cause, or a buffer of the least size with the payload and zeros behind it, and two copies in the ledger |
| `HostMeaning.NothingThere` | crates/torvyn-engine/src/host_state.rs:337-629 | Without a wrapper of the right kind every host function traps and changes nothing |
| `HostSpec.CloneWrites` | crates/torvyn-engine/src/host_state.rs:608-619 | The clone's roll-back is never taken: a fresh buffer fits what is written into it |
| `Protocol.GuestSparesInput` | crates/torvyn-engine/src/host_state.rs:380-510 | No guest operation touches the entry of an input the guest only borrows |
| `Invoker.ToWitStreamElement` | crates/torvyn-engine/src/wasmtime_invoker.rs:234-259 | Pushes an owning host entry for the element's buffer |
| `Invoker.ReclaimInputElement` | crates/torvyn-engine/src/wasmtime_invoker.rs:278-299 | Deletes the input's entry and releases its buffer, with an internal error when either is missing |
| `Invoker.ConvertOutputElement` | crates/torvyn-engine/src/wasmtime_invoker.rs:164-192 | Deletes the returned entry and transfers its buffer to the host |
| `Invoker.InvokePull` | crates/torvyn-engine/src/wasmtime_invoker.rs:311-342 | The guest performs the operations asked of it, one by one, up to a trap or one the component model refuses; store and result are those of the specified call for them; a trapping host function is an internal error, a guest trap fatal, a call that alone costs more than the budget a missed deadline, and a guest's own error is passed on |
| `Invoker.InvokeProcess` | crates/torvyn-engine/src/wasmtime_invoker.rs:345-403 | The same of a process call: archetype checked before marshalling, input reclaimed before the result is looked at, on every path, and each error with its cause |
| `Invoker.InvokePush` | crates/torvyn-engine/src/wasmtime_invoker.rs:406-449 | The same of a push; the signal the guest returns is the answer |
| `ProtocolCalls.ProcessIsARun` | crates/torvyn-engine/src/wasmtime_invoker.rs:345-403 | A whole process call is a run of protocol steps, so whatever holds of runs holds of it, traps and guest errors included |
| `ProtocolCalls.PushIsARun` | crates/torvyn-engine/src/wasmtime_invoker.rs:406-449 | A whole push is a run; it completes exactly when the guest returned normally |
| `ProtocolCalls.PullIsARun` | crates/torvyn-engine/src/wasmtime_invoker.rs:311-342 | A whole pull is a run |
| `FlowDriver.ExecutePull` | crates/torvyn-reactor/src/flow_driver.rs:543-625 | In place, on stores sharing one manager: the source performs the operations asked of it, its store, the result and the elements in flight are those of the specified pull, and that is a run of the protocol |
| `FlowDriver.ExecuteProcess` | crates/torvyn-reactor/src/flow_driver.rs:629-731 | The same of a process call on an element in flight, whether it completes, fails, or the stage cannot take the element |
| `FlowDriver.ExecutePush` | crates/torvyn-reactor/src/flow_driver.rs:735-790 | The same of a push; the element is gone |
| `FlowDriver.Drive` | crates/torvyn-reactor/src/flow_driver.rs:527-795 | Any sequence of calls and discards: every one that fits is carried out, stores, manager and elements in flight are those the calls lead to, that is one run of the protocol, each live buffer is named once, and there are as many as wrappers, elements in flight and discarded ones |
| `FlowDriver.Instantiate` | crates/torvyn-engine/src/host_state.rs:215-235 | New instances of any components on a manager without buffers are an empty start of the protocol |
| `FlowDriver.ReclaimFlowResources` | crates/torvyn-reactor/src/coordinator.rs:582-604 | The two sweeps in place are `ManagerRuns.ReapFlow` |
| `FlowDriver.RunAndReap` | crates/torvyn-reactor/src/coordinator.rs:559-604 | From a new manager over any instances and actions to the clean-up of a flow: no buffer of the flow is left, none at all if there was no other, and every buffer of the others if no instance of theirs has a cleaned-up id |
| `Protocol.StepKeeps` | crates/torvyn-engine/src/wasmtime_invoker.rs:164-403 | Every guest or host step, from any state with one home per live buffer and the right owner there, keeps that |
| `Protocol.EmitKeeps` | crates/torvyn-engine/src/wasmtime_invoker.rs:164-192 | Taking an output over fails exactly when the entry is missing, mutable, or the remains of a second freeze |
| `ProtocolRuns.Conservation` | crates/torvyn-engine/src/host_state.rs:380-629 | After any interleaving over any number of stores: each live buffer is named in exactly one place with the manager's owner, and live buffers = wrappers + in flight + discarded |
| `ProtocolRuns.LiveCount` | crates/torvyn-resources/src/manager.rs:694-696 | The live count in every reachable state is the number of naming wrappers, elements in flight and discarded elements |
| `ProtocolRuns.HostStepsCopyNothing` | crates/torvyn-engine/src/wasmtime_invoker.rs:164-299 | No host step moves payload bytes: the copy ledger changes only in guest operations |
| `ProtocolCalls.ReclaimNeverFails` | crates/torvyn-engine/src/wasmtime_invoker.rs:278-299 | Reclaiming the input of a call under way always succeeds and takes exactly that buffer |
| `ProtocolCalls.AdmittedExactly` | crates/torvyn-engine/src/host_state.rs:337-629 | What a call lets through is what the protocol allows |
| `ProtocolCalls.TrapsExactlyOnDeadHandles` | crates/torvyn-engine/src/host_state.rs:337-629 | In every reachable state a host function traps its guest if and only if the handle is missing or of the wrong kind, or is what a freeze left and the function looks inside; no release or ownership check is ever refused |
| `ProtocolCalls.WriteFailsExactly` | crates/torvyn-engine/src/host_state.rs:397-417 | A write through a live mutable handle fails exactly past the capacity, never for its owner |
| `ProtocolPayload.OnlyWritesChangePayloads` | crates/torvyn-engine/src/host_state.rs:337-629 | Only a write or append through a mutable wrapper on it changes what a buffer holds |
| `ProtocolPayload.FreezeFreezes` | crates/torvyn-engine/src/host_state.rs:462-495 | After a freeze nobody can write the buffer, and it holds what it held |
| `ProtocolPayload.RunKeepsFrozen` | crates/torvyn-engine/src/host_state.rs:462-495 | A frozen buffer keeps its payload through every run it survives |
| `ProtocolPayload.ReadersSeeWhatWasFrozen` | crates/torvyn-engine/src/host_state.rs:367-378 | Whoever reads the buffer later, from any store, gets the bytes it held when frozen |
| `ProtocolCalls.CancelStrands` | crates/torvyn-reactor/src/flow_driver.rs:664-678 | A call timed out by dropping it leaves its input's entry in the table |
| `ProtocolCalls.CancelledInputIsNeverReclaimed` | crates/torvyn-reactor/src/flow_driver.rs:664-678 | That entry stays, and its buffer live, throughout a continuation if and only if the guest never returns the input it borrowed as an output |
| `ProtocolCalls.InputOutlivesExactlyCancelledCalls` | crates/torvyn-engine/src/wasmtime_invoker.rs:278-299 | Of the two ways a call under way ends, its input is still live after it if and only if the call was cancelled |
| `ProtocolReap.ReapLeavesNothing` | crates/torvyn-reactor/src/coordinator.rs:559-604 | However the runs on a manager went, memory failures included, reaping a flow leaves none of its buffers and none its stages' components own, no budget of theirs, and the ledger as it was; the other flows' buffers all survive if and only if no such component owns one; budgets stay exact if no allocation failed for want of memory |
| `ProtocolReap.LastFlowLeavesNothing` | crates/torvyn-reactor/src/coordinator.rs:559-604 | When every store runs for the flow, nothing at all is left |
| `ProtocolReap.DistinctIdsKeepOtherFlows` | crates/torvyn-pipeline/src/instantiate.rs:235 | When no store of another flow has a reaped stage's component id, no buffer of another flow is lost |
| `ProtocolReap.ReapTakesTheOtherFlowsBuffer` | crates/torvyn-pipeline/src/instantiate.rs:235 | Component 1 of flow 2 loses a live buffer when flow 1, whose stage is its own component 1, is reaped |
| `StageCalls.SourceCall` | tests/test-components/echo-source/src/lib.rs:128-161 | One pull makes one buffer with the element, hands it to the host, leaves the store's table empty and records one copy |
| `StageCalls.ProcessorCall` | tests/test-components/identity-processor/src/lib.rs:17-36 | One process call passes the bytes on in a new buffer, frees the old one, and records one copy each way |
| `StageCalls.SinkCall` | tests/test-components/echo-sink/src/lib.rs:27-35 | One push reads the bytes, frees the buffer, and records one copy |
| `PipelineRun.StepKeepsSound` | crates/torvyn-reactor/src/flow_driver.rs:527-795 | No stage step of a fitting pipeline ever fails, and each moves one element on in order |
| `PipelineRun.DrainedIsExact` | benches/src/real_wasm.rs:92-112 | For k processors and any interleaving a drained run has recorded exactly 2(k+1) copies per element and of its bytes, (k+1) transfers per element, no live buffer, no budget charge, and the sink has read what the source wrote, in order |
| `PipelineRun.DrainedAfter` | benches/src/real_wasm.rs:157-175 | A run is drained exactly after (k+2)N steps and no run is longer |
| `PipelineRun.NeverStuck` | crates/torvyn-reactor/src/flow_driver.rs:527-795 | Until drained some stage can run, with any positive queue capacity |
| `PipelineRun.CanBeDrained` | crates/torvyn-reactor/src/flow_driver.rs:527-795 | From every state of a flow some run drains it, so the law above is about runs that exist |
| `PipelineRun.ValidateHolds` | benches/src/real_wasm.rs:312-361 | The asserted numbers come out of every drained run; the byte total exactly when there are no elements or the payload size is one the source does not clamp |
| `PipelineRun.ShortPayloadBreaksTheLaw` | benches/src/real_wasm.rs:157-168 | One element of seven bytes: fourteen expected, sixteen copied |
| `PipelineRun.EverySpecCanBeRun` | benches/src/real_wasm.rs:157-175 | Every benchmark configuration has a run that drains it, with any positive queue capacity |
| `PipelineRun.ShortPayloadRuns` | benches/src/real_wasm.rs:157-168 | A run with seven-byte payloads exists: sixteen bytes copied, fourteen expected |
| `PipelineRun.EchoIsNumbered` | tests/test-components/echo-source/src/lib.rs:128-161 | An echo payload says its number in its first eight bytes, and the rest is filler |
| `EditDistance.EditDistance` | crates/torvyn-config/src/error.rs:465-480 | The two swapped rows compute the recurrence on whole strings, empty ones included |
| `EditDistance.LevIsShortestScript` | crates/torvyn-config/src/error.rs:465-480 | The result is the length of a shortest script of insertions, deletions and substitutions that turns one string into the other |
| `EditDistance.ZeroExactlyOnEquals` | crates/torvyn-config/src/error.rs:465-480 | Zero exactly for equal strings |
| `EditDistance.Symmetric` | crates/torvyn-config/src/error.rs:465-480 | Symmetric |
| `EditDistance.Triangle` | crates/torvyn-config/src/error.rs:465-480 | The triangle inequality |
| `EditDistance.BetweenLengths` | crates/torvyn-config/src/error.rs:465-480 | Between the difference of the lengths and the longer length |
| `EditDistance.SuggestsNearest` | crates/torvyn-config/src/error.rs:433-441 | The suggestion is the earliest of the closest keys, and there is none exactly when no script of one edit, of two for six bytes or more, or of three for nine or more, leads to a key |
| `EditDistance.WidthIsLeast` | crates/torvyn-config/src/error.rs:434 | A character counts as the fewest UTF-8 bytes it can be written in |
| `EditDistance.KnownKeySuggestsItself` | crates/torvyn-config/src/error.rs:433-441 | A key that is spelled right is its own suggestion |
| `UnknownField.RoundTrip` | crates/torvyn-config/src/error.rs:391-408 | Parsing a rendered message, in any shape and below any lines that do not look like one, gives back key and keys exactly when none has a quote or a line feed in it |
| `UnknownField.QuoteInKeyIsNotRecovered` | crates/torvyn-config/src/error.rs:391-408 | A concrete key that is not recovered |
| `UnknownField.ParsedIsFree` | crates/torvyn-config/src/error.rs:391-408 | No text makes the parser return a key with a quote or a line feed |
| `UnknownField.NoMessageNoAnswer` | crates/torvyn-config/src/error.rs:391-394 | A text without a line that starts like the message gives nothing |
| `Env.InterpolateEnv` | crates/torvyn-config/src/env.rs:29-78 | The scanner's result is the expansion of the split |
| `Env.TokensAreLossless` | crates/torvyn-config/src/env.rs:29-78 | The split loses nothing, and literals stand only where no reference starts |
| `Env.TokensAreUnique` | crates/torvyn-config/src/env.rs:29-78 | It is the only such split of the text |
| `Env.ReferenceExactly` | crates/torvyn-config/src/env.rs:34-61 | A text starts with a reference exactly when it is one's text with anything behind it |
| `Env.FailsExactlyOnUnset` | crates/torvyn-config/src/env.rs:63-70 | It fails exactly when a closed, named reference is unset, and names the first |
| `Env.InterpolateIdentity` | crates/torvyn-config/src/env.rs:29-78 | The identity when every name maps to its own reference text |
| `Env.SplitsApartExactly` | crates/torvyn-config/src/env.rs:29-78 | The split distributes over a concatenation exactly when the boundary cuts no reference |
| `Env.ValuesAreVerbatim` | crates/torvyn-config/src/env.rs:63-64 | A substituted value is never scanned again |
| `Compatibility.CheckCompatibility` | crates/torvyn-contracts/src/compatibility.rs:80-116 | The multiset of changes and the verdict are the specified ones for every order the hash maps may have; `CompatibilityReport.ReportIsExact` says which they are |
| `Compatibility.CompareInterfaceContents` | crates/torvyn-contracts/src/compatibility.rs:206-312 | Pushes exactly the changes of two interfaces |
| `Compatibility.CompareTypeDefs` | crates/torvyn-contracts/src/compatibility.rs:315-363 | Pushes exactly the changes of two type definitions |
| `CompatibilityReport.ReportIsExact` | crates/torvyn-contracts/src/compatibility.rs:80-483 | For each of the 21 kinds of change and every path, how often the change is reported, said of the two packages |
| `CompatibilityReport.InterfaceCount` | crates/torvyn-contracts/src/compatibility.rs:206-312 | The same of two interfaces under any path |
| `CompatibilityReport.TypeDefCount` | crates/torvyn-contracts/src/compatibility.rs:315-457 | The same of two definitions of a type |
| `CompatibilityLaws.PackageSays` | crates/torvyn-contracts/src/compatibility.rs:170-483 | No change is Breaking exactly when the new package extends the old; there is none at all exactly when each extends the other, resources aside |
| `CompatibilityLaws.VerdictMeans` | crates/torvyn-contracts/src/compatibility.rs:98-108 | What each verdict says of the two packages |
| `CompatibilityLaws.SamePackageIsCompatible` | crates/torvyn-contracts/src/compatibility.rs:80-116 | A package compared with itself is Compatible, without changes |
| `CompatibilityLaws.TwoWaysIsNoChange` | crates/torvyn-contracts/src/compatibility.rs:80-116 | If neither direction is Breaking neither reports any change |
| `CompatibilityLaws.UpgradesCompose` | crates/torvyn-contracts/src/compatibility.rs:98-108 | Two upgrades in a row are never worse than the worse of them |
| `CompatibilityLaws.ChainsCompose` | crates/torvyn-contracts/src/compatibility.rs:98-108 | Nor is any chain worse than its worst step |
| `CompatibilityClients.UpgradesKeepClients` | crates/torvyn-contracts/src/compatibility.rs:206-457 | After an upgrade that is not Breaking, calls, record literals and variant and enum constructions type as before; all clients do exactly when flags and alias targets are kept |
| `CompatibilityClients.ClientsKeptExactly` | crates/torvyn-contracts/src/compatibility.rs:315-363 | For one interface, both directions |
| `CompatibilityClients.DroppedFlagIsMissed` | crates/torvyn-contracts/src/compatibility.rs:349-361 | A concrete dropped flag: verdict Compatible, client broken |
| `CycleSearch.Search.HasCycle` | crates/torvyn-contracts/src/linker.rs:275-298 | With `visited` shared between roots it returns true only on a reachable cycle; otherwise the path is restored and everything new is finished in post-order |
| `CycleSearch.PostOrderHasNoCycle` | crates/torvyn-contracts/src/linker.rs:275-298 | From a node in a post-order no cycle is reachable |
| `PipelineValidation.DetectCycles` | crates/torvyn-contracts/src/linker.rs:242-272 | Exactly one diagnostic if and only if a cycle is reachable from a declared component; after silence the reversed finishing order is a topological order of exactly the nodes reached |
| `PipelineValidation.CheckEndpoints` | crates/torvyn-contracts/src/linker.rs:150-171 | Pushes the diagnostics of unknown endpoints, in order |
| `PipelineValidation.CheckRoles` | crates/torvyn-contracts/src/linker.rs:193-235 | Pushes the diagnostics of wrongly connected sources and sinks, in order |
| `PipelineValidation.CheckContracts` | crates/torvyn-contracts/src/linker.rs:305-375 | Pushes one diagnostic for each incompatible pair of same-named packages over a connection, in order |
| `PipelineValidation.CompatibleExtends` | crates/torvyn-contracts/src/linker.rs:320-375 | Two same-named packages are compatible over a connection exactly when the downstream's interfaces offer all of the upstream's, unchanged |
| `PipelineValidation.CheckCapabilities` | crates/torvyn-contracts/src/linker.rs:378-405 | Pushes one diagnostic for each required capability that is not granted, in order |
| `PipelineValidation.CheckVersions` | crates/torvyn-contracts/src/linker.rs:408-445 | Pushes exactly the diagnostics of versions whose major differs from the package's first, in whatever order the map yields packages |
| `PipelineValidation.VersionsGood` | crates/torvyn-contracts/src/linker.rs:408-445 | Comparing with the first is silent exactly when all versions of each package share a major version |
| `PipelineValidation.LastWins` | crates/torvyn-contracts/src/linker.rs:305-320 | Of several components with one name the last is the one compared |
| `PipelineValidation.ValidatePipeline` | crates/torvyn-contracts/src/linker.rs:117-141 | Accepted if and only if well formed; every diagnostic is of a fault the pipeline has, and every fault but further cycles is reported |
| `Topology.TopologicalOrder` | crates/torvyn-linker/src/topology.rs:342-381 | Kahn's algorithm yields an order exactly when there is no cycle, and then a topological order of all nodes without repetition |
| `Topology.Validate` | crates/torvyn-linker/src/topology.rs:199-335 | No errors if and only if the graph is valid: name, nodes, endpoints, connectivity, roles, cycles, fan limits; every error is of a fault the graph has, and of a graph with nodes every fault but further cycles is reported |
| `Topology.CycleErrors` | crates/torvyn-linker/src/topology.rs:386-436 | An error exactly when there is a cycle, and the path reported is one: back to its first node over edges of the graph, no other node twice |
| `ImportResolution.ResolveSingleImport` | crates/torvyn-linker/src/resolver.rs:206-276 | The host first, then the connected exporters: none, one, or the first with an ambiguity error |
| `ImportResolution.NoErrorsExactlyProvided` | crates/torvyn-linker/src/resolver.rs:125-195 | Resolution is silent exactly when each import has the host or exactly one edge from an exporter |
| `ImportResolution.CheckCapabilityGrants` | crates/torvyn-linker/src/resolver.rs:284-335 | One error for exactly each capability that an import of a node needs and the node is not granted: file system, sockets, clocks and random interfaces need theirs, anything else none |
| `ImportResolution.GrantsNeeded` | crates/torvyn-linker/src/resolver.rs:294-331 | Which grants suffice for an import of any text: those of the packages it mentions, and none if it mentions none of the four |
| `ImportResolution.HostMeans` | crates/torvyn-linker/src/resolver.rs:20-46 | The host offers exactly what mentions an interface of one of its packages |
| `ImportResolution.ErrorsAreMisprovided` | crates/torvyn-linker/src/resolver.rs:125-276 | Resolution reports exactly the imports no edge provides and those that several do |
| `ImportResolution.PipelineLinker.Link` | crates/torvyn-linker/src/linker.rs:107-154 | Succeeds if and only if the topology is valid, every import has exactly one provider and every needed grant is there; then the result is the graph's, with consecutive stream ids; otherwise the errors are faults of the topology or exactly the imports not provided, provided more than once, or not granted |
| `ImportResolution.PipelineLinker.LinkTopologyOnly` | crates/torvyn-linker/src/linker.rs:163-201 | Succeeds if and only if the topology is valid |
| `ImportResolution.ResolvedKeysAreImports` | crates/torvyn-linker/src/linker.rs:206-240 | Each linked component's resolved keys are its declared imports |
| `ImportResolution.ProvidersPrecede` | crates/torvyn-linker/src/resolver.rs:237-262 | A stream import's provider exports it, comes earlier in the order, over the only such edge |
| `ImportResolution.GatedImportsAreGranted` | crates/torvyn-linker/src/resolver.rs:97-106 | Every import flagged as capability-gated needs a capability, and every one it needs is granted |
| `ImportResolution.ImportsAreGranted` | crates/torvyn-linker/src/resolver.rs:284-335 | In a linked pipeline a component that imports any socket interface has the network grant, and likewise for files, clocks and random numbers |
| `ImportResolution.ResolvedAsMentioned` | crates/torvyn-linker/src/resolver.rs:206-276 | Each import resolves to the host, the runtime or a stream as its text says, and is flagged as gated exactly if it mentions a file system, socket or random interface |
| `ImportResolution.ContainsExactly` | crates/torvyn-linker/src/resolver.rs:216-221 | Mentioning is having something before and something behind |
| `ImportResolution.StreamIdsAreFresh` | crates/torvyn-linker/src/linker.rs:78-82 | No two connections, of one pipeline or of two linked in a row, share a stream id |
| `Cache.CompiledComponentCache.CompileOrGet` | crates/torvyn-engine/src/cache.rs:179-198 | The answer is that of compiling afresh; the engine is asked exactly when neither memory nor a readable file has the binary, and memory and directory afterwards hold what it gave |
| `Cache.CompiledComponentCache.RunAll` | crates/torvyn-engine/src/cache.rs:85-198 | So over any sequence of calls, clears and outside changes to the directory |
| `Cache.SurvivesRestart` | crates/torvyn-engine/src/cache.rs:85-198 | What one cache compiled and could write another over the same directory does not compile again |
| `Fuel.Validate` | crates/torvyn-engine/src/config.rs:134-158 | Each problem is pushed exactly when its invariant is broken |
| `Fuel.RunWithFuel` | crates/torvyn-host/src/builder.rs:576-581 | From the runtime's setting and the component's request through validation and store creation to any run of calls: a call is cut short exactly when metering is on and the call alone costs more than was asked for or, if nothing was, than was set |
| `Fuel.Store.Refuel` | crates/torvyn-engine/src/wasmtime_invoker.rs:88-103 | Sets the counter to the budget and never fails |
| `Fuel.Store.InvokeAll` | crates/torvyn-engine/src/wasmtime_invoker.rs:88-103 | In a run of any length a call runs out of fuel exactly when its own cost exceeds the budget |
| `Sizes.PrintedSizeParses` | crates/torvyn-config/src/runtime.rs:386-418 | A printed number and the unit of 1024 to the i, in any spelling and case, parse to the product exactly when it fits in `u64` |
| `Sizes.SizesExactly` | crates/torvyn-config/src/runtime.rs:386-418 | The texts that are sizes and what they are the size of; no others are accepted |
| `Sizes.PrintedBytes` | crates/torvyn-contracts/src/validator.rs:275-292 | Bytes, spelled or not, are read as they are |
| `Sizes.ParsersAgree` | crates/torvyn-contracts/src/validator.rs:275-292 | Wherever this parser and `parse_memory_size` both accept a text they read the same number, and a text whose product overflows is refused by the other |
| `Sizes.ByteSizeWraps` | crates/torvyn-contracts/src/validator.rs:275-292 | Wrapping at each multiplication, it reads the number written modulo 2^64 |
| `Sizes.OverflowsExactly` | crates/torvyn-contracts/src/validator.rs:275-292 | The texts that overflow: a spelled KiB, MiB or GiB behind a `u64` larger than `u64::MAX` divided by it |
| `Sizes.SixteenExbibytesIsZero` | crates/torvyn-contracts/src/validator.rs:275-292 | 17179869184GiB is read as zero, and refused by `parse_memory_size` |

## Left out

- Wasmtime, WASI contexts, bindgen and async plumbing are foreign code: a guest's calls, the slot a table hands
  out, the buffer pool's answer, what a call costs and how it ends are parameters.
- The per-store resource table is never full, and the content-type tag and trace context of a store are not kept.
- Locks and threads of the manager: each of its operations is one atomic step, as its mutex makes it.
- Stale and unallocated handles are one error of the manager; borrow and copy counters are unbounded.
- Zeroing on return and pool metrics; read-only reports of the manager.
- Pool.RunKeepsPool: atomics are sequentially consistent, each load, store and swap one step. A pointer that is none of
  the tier's leaves it alone and is not modelled.
- Manager.DefaultResourceManager.Allocate: a live entry has its recorded capacity and memory of its own, which
  `Pool.RightConfigurations` and `Pool.PoolIsSafe` give.
- The reactor beyond its use of the invoker: demand and back-pressure policy, scheduling, fan-out and error
  policies. `PipelineRun` lets stages run in any order bounded queues allow.
- FlowDriver.Drive: its calls run to their end and do not interleave; calls dropped midway are steps of the
  protocol in `ProtocolRuns.Conservation` only.
- PipelineRun.StepKeepsSound: the plan asks that every stage can afford one buffer for an element and that the pool
  grants it; a stage that cannot returns an error, which ends the flow.
- Cache.CompiledComponentCache.CompileOrGet: assumes distinct ids for the binaries presented, that deserialising inverts
  serialising or is rejected, and that no file of another component sits under an id.
- Env.InterpolateEnv: a variable whose value is not Unicode counts as unset; the environment is a map.
- CompatibilityClients.UpgradesKeepClients: expressions stay within one interface; imports between interfaces and worlds'
  contents are compared by neither the checker nor the model.
- ImportResolution.StreamIdsAreFresh: stream ids are unbounded, not 64 bits.
- Sizes.ByteSizeWraps: a build that traps overflow panics on the texts of `Sizes.OverflowsExactly` instead.
- Sorting of diagnostics, which have no locations here, and all message wording, JSON output and error-code tables.
- `wit-parser` conversion, TOML loading, file reading, configuration merging, capability documents, host lifecycle,
  command line, benchmarks proper, documentation scripts.
- Memory caps of stores, and the override map of `TORVYN_` variables.
- Lifecycle, back-pressure notification and teardown calls of the invoker: they move no buffers.
