/** `HostState` itself: the per-store class whose methods are the host functions a guest calls. */
module HostState {
  import opened Wrappers
  import opened Slab
  import opened ManagerSpec
  import opened Manager
  import opened HostSpec

  class HostState {
    const componentId: nat
    var flowId: nat
    var table: map<nat, Wrapper>
    const resources: DefaultResourceManager

    constructor (componentId: nat, flowId: nat, resources: DefaultResourceManager, budget: u64)
      requires resources.Valid()
      modifies resources
      ensures Valid()
      ensures this.resources == resources
      ensures State() == View(HostSpec.Store(componentId, flowId, map[]), old(resources.State()).RegisterComponent(componentId, budget))
    {
      this.componentId, this.flowId, this.resources, table := componentId, flowId, resources, map[];
      new;
      resources.RegisterComponent(componentId, budget);
    }

    ghost predicate Valid()
      reads resources, resources.table
    {
      resources.Valid()
    }

    ghost function Store(): HostSpec.Store
      reads this
    {
      HostSpec.Store(componentId, flowId, table)
    }

    ghost function State(): View
      reads this, resources, resources.table
    {
      View(Store(), resources.State())
    }

    function Lookup(rep: nat, kind: Kind): (w: Option<Wrapper>)
      reads this, resources, resources.table
      ensures w == State().Lookup(rep, kind)
    {
      if rep in table && table[rep].kind == kind then Some(table[rep]) else None
    }

    method SizeOf(rep: nat, kind: Kind) returns (r: Outcome)
      requires Valid()
      ensures (State(), r) == State().SizeOf(rep, kind)
    {
      hide Slab.ResourceTable.Valid;
      var w := Lookup(rep, kind);
      if w.None? {
        return Trapped(NoSuchResource);
      }
      var len := resources.PayloadLen(w.value.handle);
      return if len.Err? then Trapped(Refused(len.error)) else Value(Size(len.value));
    }

    method ReadRange(w: Wrapper, offset: nat, len: nat) returns (r: Outcome)
      requires Valid()
      modifies resources`ledger
      ensures Valid()
      ensures (State(), r) == old(State()).ReadRange(w, offset, len)
    {
      hide Slab.ResourceTable.Valid;
      if len == 0 {
        return Value(Bytes([]));
      }
      var bytes := resources.ReadPayload(w.handle, offset, len, flowId);
      return if bytes.Err? then Trapped(Refused(bytes.error)) else Value(Bytes(bytes.value));
    }

    method Read(rep: nat, offset: nat, len: nat) returns (r: Outcome)
      requires Valid()
      modifies resources`ledger
      ensures Valid()
      ensures (State(), r) == old(State()).Read(rep, offset, len)
    {
      hide Slab.ResourceTable.Valid;
      var w := Lookup(rep, Immutable);
      if w.None? {
        return Trapped(NoSuchResource);
      }
      var total := resources.PayloadLen(w.value.handle);
      if total.Err? {
        return Trapped(Refused(total.error));
      }
      var (from, n) := ClampReadRange(offset, len, total.value);
      r := ReadRange(w.value, from, n);
    }

    method ReadAll(rep: nat) returns (r: Outcome)
      requires Valid()
      modifies resources`ledger
      ensures Valid()
      ensures (State(), r) == old(State()).ReadAll(rep)
    {
      hide Slab.ResourceTable.Valid;
      var w := Lookup(rep, Immutable);
      if w.None? {
        return Trapped(NoSuchResource);
      }
      var total := resources.PayloadLen(w.value.handle);
      if total.Err? {
        return Trapped(Refused(total.error));
      }
      r := ReadRange(w.value, 0, total.value);
    }

    method Drop(rep: nat, kind: Kind) returns (r: Outcome)
      requires Valid()
      modifies this, resources, resources.table
      ensures Valid()
      ensures (State(), r) == old(State()).Drop(rep, kind)
    {
      hide Slab.ResourceTable.Valid, ManagerState.Release;
      var w := Lookup(rep, kind);
      if w.None? {
        return Trapped(NoSuchResource);
      }
      table := table - {rep};
      if w.value.handle == FROZEN_SENTINEL {
        return Value(Done);
      }
      var released := resources.Release(w.value.handle, w.value.owner);
      return if released.Err? then Trapped(Refused(released.error)) else Value(Done);
    }

    method WriteAt(w: Wrapper, offset: nat, data: seq<byte>) returns (r: Outcome)
      requires Valid()
      modifies resources`ledger, resources.table
      ensures Valid()
      ensures (State(), r) == old(State()).WriteAt(w, offset, data)
    {
      hide Slab.ResourceTable.Valid, ManagerState.WritePayload;
      var written := resources.WritePayload(w.handle, w.owner, offset, data, flowId);
      return if written.Err? then Failed(BufferErrorFrom(written.error)) else Value(Done);
    }

    method Write(rep: nat, offset: nat, data: seq<byte>) returns (r: Outcome)
      requires Valid()
      modifies resources`ledger, resources.table
      ensures Valid()
      ensures (State(), r) == old(State()).Write(rep, offset, data)
    {
      hide Slab.ResourceTable.Valid;
      var w := Lookup(rep, Mutable);
      if w.None? {
        return Trapped(NoSuchResource);
      }
      if offset > U32_MAX {
        return Failed(BufferError.OutOfBounds);
      }
      r := WriteAt(w.value, offset, data);
    }

    method Append(rep: nat, data: seq<byte>) returns (r: Outcome)
      requires Valid()
      modifies resources`ledger, resources.table
      ensures Valid()
      ensures (State(), r) == old(State()).Append(rep, data)
    {
      hide Slab.ResourceTable.Valid;
      var w := Lookup(rep, Mutable);
      if w.None? {
        return Trapped(NoSuchResource);
      }
      var len := resources.PayloadLen(w.value.handle);
      if len.Err? {
        return Trapped(Refused(len.error));
      }
      r := WriteAt(w.value, len.value, data);
    }

    method Capacity(rep: nat) returns (r: Outcome)
      requires Valid()
      ensures (State(), r) == State().Capacity(rep)
    {
      var w := Lookup(rep, Mutable);
      if w.None? {
        return Trapped(NoSuchResource);
      }
      var info := resources.table.Get(w.value.handle);
      return if info.Missing? then Trapped(Refused(InvalidHandle)) else Value(Size(|info.entry.memory|));
    }

    /** Relabels the buffer: the mutable wrapper keeps its slot but not its handle. */
    method Freeze(rep: nat, at: nat) returns (r: Outcome)
      modifies this`table
      ensures (State(), r) == old(State()).Freeze(rep, at)
    {
      hide Slab.ResourceTable.Valid;
      var w := Lookup(rep, Mutable);
      if w.None? {
        return Trapped(NoSuchResource);
      }
      table := table[rep := w.value.(handle := FROZEN_SENTINEL)];
      table := table[at := w.value.(kind := Immutable)];
      return Value(Handle(at));
    }

    /** `memoryAvailable` is the buffer pool's answer; `pool` records how the allocation then went. */
    method Allocate(hint: nat, at: nat, memoryAvailable: bool) returns (r: Outcome, ghost pool: PoolAnswer)
      requires Valid()
      modifies this, resources, resources.table
      ensures Valid()
      ensures (State(), r) == old(State()).Allocate(hint, at, pool)
      ensures old(at !in table) ==> old(State()).Possible(GuestOp.Allocate(hint, at, pool))
      ensures r == Failed(BufferError.AllocationFailed) ==> !memoryAvailable || old(resources.TableFull())
      ensures pool.OutOfMemory? <==> !memoryAvailable
    {
      hide Slab.ResourceTable.Valid, ManagerState.Allocate;
      pool := if memoryAvailable then TableIsFull else OutOfMemory;
      if hint > MAX_BUFFER_CAPACITY {
        return Failed(BufferError.CapacityExceeded), pool;
      }
      var granted;
      granted, pool := resources.Allocate(Component(componentId), hint, flowId, memoryAvailable);
      if granted.Err? {
        return Failed(BufferErrorFrom(granted.error)), pool;
      }
      table := table[at := Wrapper(Mutable, granted.value, Component(componentId))];
      return Value(Handle(at)), pool;
    }

    method FillClone(data: seq<byte>, at: nat, memoryAvailable: bool) returns (r: Outcome, ghost pool: PoolAnswer)
      requires Valid()
      modifies this, resources, resources.table
      ensures Valid()
      ensures (State(), r) == old(State()).FillClone(data, at, pool)
      ensures pool.Granted? ==> pool.id !in old(resources.State()).entries && pool.id != FROZEN_SENTINEL
      ensures pool.OutOfMemory? <==> !memoryAvailable
      ensures r == Failed(BufferError.AllocationFailed) ==> pool.Granted? || !memoryAvailable || old(resources.TableFull())
    {
      hide Slab.ResourceTable.Valid, ManagerState.Allocate, ManagerState.WritePayload, ManagerState.Release;
      var owner := Component(componentId);
      var granted;
      granted, pool := resources.Allocate(owner, if |data| == 0 then 1 else |data|, flowId, memoryAvailable);
      if granted.Err? {
        return Failed(BufferErrorFrom(granted.error)), pool;
      }
      if |data| != 0 {
        var written := resources.WritePayload(granted.value, owner, 0, data, flowId);
        if written.Err? {
          var _ := resources.Release(granted.value, owner);
          return Failed(BufferErrorFrom(written.error)), pool;
        }
      }
      table := table[at := Wrapper(Mutable, granted.value, owner)];
      return Value(Handle(at)), pool;
    }

    method CloneIntoMutable(rep: nat, at: nat, memoryAvailable: bool) returns (r: Outcome, ghost pool: PoolAnswer)
      requires Valid()
      modifies this, resources, resources.table
      ensures Valid()
      ensures (State(), r) == old(State()).CloneIntoMutable(rep, at, pool)
      ensures pool.Granted? ==> pool.id !in old(resources.State()).entries && pool.id != FROZEN_SENTINEL
      ensures pool.OutOfMemory? <==> !memoryAvailable
      ensures r == Failed(BufferError.AllocationFailed) ==> !memoryAvailable || old(resources.TableFull())
    {
      hide Slab.ResourceTable.Valid, View.FillClone;
      pool := if memoryAvailable then TableIsFull else OutOfMemory;
      r := ReadAll(rep);
      if r.Value? {
        var data := r.answer.bytes;
        ghost var read := State();
        r, pool := FillClone(data, at, memoryAvailable);
        GrantedCloneFits(read, data, at, pool);
      }
    }
  }
}
