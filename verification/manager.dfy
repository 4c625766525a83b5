/** `DefaultResourceManager` itself: the class, operation by operation, over the generational slab. */
module Manager {
  import opened Slab
  import opened ManagerSpec

  class DefaultResourceManager {
    const table: ResourceTable<Entry>
    var componentResources: map<nat, set<ResourceId>>
    var flowResources: map<nat, set<ResourceId>>
    var budgets: map<nat, Budget>
    var ledger: map<nat, CopyStats>

    ghost predicate Valid()
      reads this, table
    {
      && table.Valid()
      && (forall h :: h in table.contents ==> h.index < U32_MAX)
    }

    /** No slot is free and the slots cannot be doubled. */
    ghost predicate TableFull()
      reads this, table
    {
      |table.contents| == table.capacity && 2 * table.capacity > U32_MAX
    }

    ghost function State(): ManagerState
      reads this, table
    {
      ManagerState(table.contents, componentResources, flowResources, budgets, ledger)
    }

    constructor (tableCapacity: nat)
      requires 0 < tableCapacity <= U32_MAX
      ensures Valid() && fresh(table)
      ensures State() == ManagerState(map[], map[], map[], map[], map[])
    {
      table := new ResourceTable(tableCapacity);
      componentResources, flowResources, budgets, ledger := map[], map[], map[], map[];
    }

    /** `memoryAvailable` is the pool's answer. The id handed out is fresh and is never the id with both
        halves `u32::MAX`. */
    method Allocate(owner: OwnerId, minCapacity: nat, flow: nat, memoryAvailable: bool)
      returns (r: Result<ResourceId>, ghost pool: PoolAnswer)
      requires Valid()
      modifies this, table
      ensures Valid()
      ensures (State(), r) == old(State()).Allocate(owner, minCapacity, flow, pool)
      ensures pool.Granted? ==> memoryAvailable && pool.id !in old(State()).entries && pool.id.index < U32_MAX
      ensures pool.OutOfMemory? <==> !memoryAvailable
      ensures r.Ok? ==> pool == Granted(r.value) && !old(TableFull())
      ensures r.Err? ==> r.error == CapacityExceeded || r.error == BudgetExceeded || r.error == AllocationFailed
      ensures r == Err(AllocationFailed) ==> !memoryAvailable || old(TableFull())
    {
      hide ResourceTable.Valid, TierCapacity;
      pool := if memoryAvailable then TableIsFull else OutOfMemory;
      if minCapacity > MAX_BUFFER_SIZE {
        return Err(CapacityExceeded), pool;
      }
      var capacity := TierCapacity(minCapacity);
      if owner.Component? {
        var reserved := Reserve(budgets, owner.id, capacity);
        if reserved.Err? {
          return Err(reserved.error), pool;
        }
        budgets := reserved.value;
      }
      if !memoryAvailable {
        return Err(AllocationFailed), pool;
      }
      var inserted := table.Insert(Resource(Owned, owner, 0, ZeroBytes(capacity), 0, flow));
      if inserted.TableFull? {
        if owner.Component? {
          budgets := Unreserve(budgets, owner.id, capacity);
        }
        return Err(AllocationFailed), pool;
      }
      if owner.Component? {
        componentResources := IndexAdd(componentResources, owner.id, inserted.id);
      }
      flowResources := IndexAdd(flowResources, flow, inserted.id);
      return Ok(inserted.id), Granted(inserted.id);
    }

    /** `release_to_pool` and `begin_transfer` make the same checks in the same order. */
    method CheckExclusive(h: ResourceId, caller: OwnerId) returns (r: Result<Entry>)
      requires Valid()
      ensures r == State().CheckExclusive(h, caller)
    {
      var found := table.Get(h);
      if found.Missing? {
        return Err(InvalidHandle);
      }
      var e := found.entry;
      if e.state != Owned {
        return Err(if e.state == Borrowed then BorrowsOutstanding else InvalidHandle);
      }
      if e.owner != caller {
        return Err(NotOwner);
      }
      if e.borrowCount > 0 {
        return Err(BorrowsOutstanding);
      }
      return Ok(e);
    }

    method Release(h: ResourceId, caller: OwnerId) returns (r: Result<()>)
      requires Valid()
      modifies this, table
      ensures Valid()
      ensures (State(), r) == old(State()).Release(h, caller)
    {
      hide ResourceTable.Valid;
      var checked := CheckExclusive(h, caller);
      if checked.Err? {
        return Err(checked.error);
      }
      Vacate(h);
      if caller.Component? {
        componentResources := IndexRemove(componentResources, caller.id, h);
        budgets := Unreserve(budgets, caller.id, |checked.value.memory|);
      }
      flowResources := IndexRemove(flowResources, checked.value.flow, h);
      return Ok(());
    }

    method Vacate(h: ResourceId)
      requires Valid() && h in table.contents
      modifies table
      ensures Valid()
      ensures State() == old(State()).(entries := old(State()).entries - {h})
    {
      var removed := table.Remove(h);
    }

    method TransferOwnership(h: ResourceId, from: OwnerId, to: OwnerId) returns (r: Result<()>)
      requires Valid()
      modifies this, table
      ensures Valid()
      ensures (State(), r) == old(State()).TransferOwnership(h, from, to)
    {
      hide ResourceTable.Valid;
      var found := table.Get(h);
      if found.Missing? {
        return Err(InvalidHandle);
      }
      var capacity := |found.entry.memory|;
      if to.Component? {
        var reserved := Reserve(budgets, to.id, capacity);
        if reserved.Err? {
          return Err(reserved.error);
        }
        budgets := reserved.value;
      }
      r := MoveEntry(h, from, to);
      if r.Err? {
        return;
      }
      if from.Component? {
        componentResources := IndexRemove(componentResources, from.id, h);
        budgets := Unreserve(budgets, from.id, capacity);
      }
      if to.Component? {
        componentResources := IndexAdd(componentResources, to.id, h);
      }
    }

    /** Both halves of a transfer, under one lock. */
    method MoveEntry(h: ResourceId, from: OwnerId, to: OwnerId) returns (r: Result<()>)
      requires Valid() && h in table.contents
      modifies table
      ensures Valid()
      ensures var checked := old(State()).CheckExclusive(h, from);
              if checked.Err? then r == Err(checked.error) && State() == old(State())
              else r == Ok(()) && State() == old(State()).(entries := old(State()).entries[h := old(State()).entries[h].(owner := to)])
    {
      hide ResourceTable.Valid;
      var begun := BeginTransfer(h, from);
      if begun.Err? {
        return Err(begun.error);
      }
      CompleteTransfer(h, to);
      assert table.contents == old(table.contents)[h := old(table.contents)[h].(owner := to)];
      return Ok(());
    }

    /** `begin_transfer`: the owner is `Transit` until `CompleteTransfer`, under the same lock. */
    method BeginTransfer(h: ResourceId, caller: OwnerId) returns (r: Result<Entry>)
      requires Valid()
      modifies table
      ensures Valid()
      ensures r == old(State()).CheckExclusive(h, caller)
      ensures State() ==
              if r.Err? then old(State())
              else old(State()).(entries := old(State()).entries[h := r.value.(state := InTransit, owner := Transit)])
    {
      r := CheckExclusive(h, caller);
      if r.Ok? {
        table.Put(h, r.value.(state := InTransit, owner := Transit));
      }
    }

    method CompleteTransfer(h: ResourceId, to: OwnerId)
      requires Valid() && h in table.contents
      modifies table
      ensures Valid()
      ensures State() == old(State()).(
                entries := old(State()).entries[h := old(State()).entries[h].(state := Owned, owner := to)])
    {
      var e := table.Get(h).entry;
      table.Put(h, e.(state := Owned, owner := to));
    }

    method BorrowStart(h: ResourceId) returns (r: Result<()>)
      requires Valid()
      modifies this, table
      ensures Valid()
      ensures (State(), r) == old(State()).BorrowStart(h)
    {
      var found := table.Get(h);
      if found.Missing? || !(found.entry.state == Owned || found.entry.state == Borrowed) {
        return Err(InvalidHandle);
      }
      table.Put(h, found.entry.(borrowCount := found.entry.borrowCount + 1, state := Borrowed));
      return Ok(());
    }

    method BorrowEnd(h: ResourceId) returns (r: Result<()>)
      requires Valid()
      modifies this, table
      ensures Valid()
      ensures (State(), r) == old(State()).BorrowEnd(h)
    {
      var found := table.Get(h);
      if found.Missing? || found.entry.state != Borrowed || found.entry.borrowCount == 0 {
        return Err(InvalidHandle);
      }
      var left := found.entry.borrowCount - 1;
      table.Put(h, found.entry.(borrowCount := left, state := if left == 0 then Owned else Borrowed));
      return Ok(());
    }

    method RecordCopy(flow: nat, bytes: nat, reason: CopyReason)
      modifies this`ledger
      ensures State() == old(State()).RecordCopy(flow, bytes, reason)
    {
      if flow in ledger {
        ledger := ledger[flow := ledger[flow].Record(bytes, reason)];
      }
    }

    method ReadPayload(h: ResourceId, offset: nat, length: nat, flow: nat) returns (r: Result<seq<byte>>)
      requires Valid()
      modifies this`ledger
      ensures Valid()
      ensures (State(), r) == old(State()).ReadPayload(h, offset, length, flow)
    {
      var found := table.Get(h);
      if found.Missing? {
        return Err(InvalidHandle);
      }
      if offset + length > found.entry.payloadLen {
        return Err(OutOfBounds);
      }
      var bytes := found.entry.memory[offset..offset + length];
      RecordCopy(flow, length, HostToComponent);
      return Ok(bytes);
    }

    method WritePayload(h: ResourceId, caller: OwnerId, offset: nat, data: seq<byte>, flow: nat) returns (r: Result<()>)
      requires Valid()
      modifies this`ledger, table
      ensures Valid()
      ensures (State(), r) == old(State()).WritePayload(h, caller, offset, data, flow)
    {
      hide ResourceTable.Valid;
      var found := table.Get(h);
      if found.Missing? {
        return Err(InvalidHandle);
      }
      var e := found.entry;
      if e.owner != caller {
        return Err(NotOwner);
      }
      if e.state != Owned {
        return Err(BorrowsOutstanding);
      }
      var end := offset + |data|;
      if end > |e.memory| {
        return Err(CapacityExceeded);
      }
      e := e.(memory := Overwrite(e.memory, offset, data));
      if end > e.payloadLen {
        e := e.(payloadLen := end);
      }
      table.Put(h, e);
      RecordCopy(flow, |data|, ComponentToHost);
      return Ok(());
    }

    method PayloadLen(h: ResourceId) returns (r: Result<nat>)
      requires Valid()
      ensures r == State().PayloadLen(h)
    {
      var found := table.Get(h);
      return if found.Found? then Ok(found.entry.payloadLen) else Err(InvalidHandle);
    }

    method RegisterFlow(flow: nat)
      modifies this`ledger
      ensures State() == old(State()).RegisterFlow(flow)
    {
      if flow !in ledger {
        ledger := ledger[flow := NO_COPIES];
      }
    }

    method RegisterComponent(c: nat, max: u64)
      modifies this`budgets
      ensures State() == old(State()).RegisterComponent(c, max)
    {
      budgets := budgets[c := Budget(max, 0)];
    }

    /** One buffer of the flow's sweep, whoever owns it. */
    method SweepBuffer(h: ResourceId)
      requires Valid()
      modifies this, table
      ensures Valid()
      ensures State() == SweepOne(old(State()), h)
    {
      hide ResourceTable.Valid;
      var found := table.Get(h);
      if found.Missing? {
        return;
      }
      var e := found.entry;
      if e.owner.Component? {
        componentResources := IndexRemove(componentResources, e.owner.id, h);
        budgets := Unreserve(budgets, e.owner.id, |e.memory|);
      }
      Vacate(h);
    }

    /** The sweep keyed by flow: every buffer the flow index names is returned, in the order the set yields
        them, and the copy ledger is left alone. */
    method ReclaimFlowBuffers(flow: nat)
      requires Valid()
      modifies this, table
      ensures Valid()
      ensures State() == old(State()).ReclaimFlowBuffers(flow)
    {
      hide ResourceTable.Valid, ManagerState.Swept, SweepOne;
      var ids := if flow in flowResources then flowResources[flow] else {};
      flowResources := flowResources - {flow};
      var todo := ids;
      SweepNone(old(State()), flow);
      assert ids - todo == {};
      while todo != {}
        invariant Valid() && todo <= ids
        invariant State() == old(State()).Swept(flow, ids - todo)
        decreases |todo|
      {
        var h :| h in todo;
        SweepOneMore(old(State()), flow, ids - todo, h);
        assert ids - (todo - {h}) == ids - todo + {h};
        SweepBuffer(h);
        todo := todo - {h};
      }
      assert ids - {} == ids;
    }

    method DropBuffer(h: ResourceId)
      requires Valid()
      modifies this, table
      ensures Valid()
      ensures State() == DropOne(old(State()), h)
    {
      hide ResourceTable.Valid;
      var found := table.Get(h);
      if found.Missing? {
        return;
      }
      Vacate(h);
      flowResources := IndexRemove(flowResources, found.entry.flow, h);
    }

    /** The sweep keyed by component, after which the component is no longer registered with a budget. */
    method ForceReclaim(c: nat)
      requires Valid()
      modifies this, table
      ensures Valid()
      ensures State() == old(State()).ForceReclaim(c)
    {
      hide ResourceTable.Valid, ManagerState.Dropped, DropOne;
      var ids := if c in componentResources then componentResources[c] else {};
      componentResources := componentResources - {c};
      var todo := ids;
      DropNone(old(State()), c);
      assert ids - todo == {};
      while todo != {}
        invariant Valid() && todo <= ids
        invariant State() == old(State()).Dropped(c, ids - todo)
        decreases |todo|
      {
        var h :| h in todo;
        DropOneMore(old(State()), c, ids - todo, h);
        assert ids - (todo - {h}) == ids - todo + {h};
        DropBuffer(h);
        todo := todo - {h};
      }
      assert ids - {} == ids;
      assert State() == old(State()).Dropped(c, ids);
      DroppedBudgets(old(State()), c, ids);
      budgets := budgets - {c};
    }
  }

  lemma DroppedBudgets(s: ManagerState, c: nat, gone: set<ResourceId>)
    ensures s.Dropped(c, gone).budgets == s.budgets
  {
  }
}
