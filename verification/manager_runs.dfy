/** Which manager operations keep the reverse indices and the budgets exact, over every run. */
module ManagerRuns {
  import opened Slab
  import opened ManagerSpec

  datatype Op =
    | Allocate(owner: OwnerId, minCapacity: nat, flow: nat, pool: PoolAnswer)
    | Release(h: ResourceId, caller: OwnerId)
    | Transfer(h: ResourceId, from: OwnerId, to: OwnerId)
    | BorrowStart(h: ResourceId)
    | BorrowEnd(h: ResourceId)
    | Read(h: ResourceId, offset: nat, length: nat, flow: nat)
    | Write(h: ResourceId, caller: OwnerId, offset: nat, data: seq<byte>, flow: nat)
    | RegisterFlow(flow: nat)
    | RegisterComponent(c: nat, max: u64)
    | ReclaimFlow(flow: nat)
    | ForceReclaim(c: nat)

  /** The slab never grants a live id. */
  predicate Possible(s: ManagerState, op: Op) {
    op.Allocate? && op.pool.Granted? ==> op.pool.id !in s.entries
  }

  ghost function Apply(s: ManagerState, op: Op): ManagerState {
    match op
    case Allocate(owner, min, flow, pool) => s.Allocate(owner, min, flow, pool).0
    case Release(h, caller) => s.Release(h, caller).0
    case Transfer(h, from, to) => s.TransferOwnership(h, from, to).0
    case BorrowStart(h) => s.BorrowStart(h).0
    case BorrowEnd(h) => s.BorrowEnd(h).0
    case Read(h, offset, length, flow) => s.ReadPayload(h, offset, length, flow).0
    case Write(h, caller, offset, data, flow) => s.WritePayload(h, caller, offset, data, flow).0
    case RegisterFlow(flow) => s.RegisterFlow(flow)
    case RegisterComponent(c, max) => s.RegisterComponent(c, max)
    case ReclaimFlow(flow) => s.ReclaimFlowBuffers(flow)
    case ForceReclaim(c) => s.ForceReclaim(c)
  }

  /** The calls that leave the manager inconsistent:
      - an allocation charged to a registered component for which the pool then has no memory;
      - a transfer charged to a registered component that the ownership checks then refuse;
      - an allocation or a transfer to the `Transit` pseudo-owner that goes through;
      - registering a component that already owns buffers;
      - an allocation or a transfer whose charge wraps past 2^64 and goes through. */
  ghost predicate Disturbs(s: ManagerState, op: Op) {
    match op
    case Allocate(owner, min, _, pool) =>
      && min <= MAX_BUFFER_SIZE
      && (if owner.Component? then
            && owner.id in s.budgets && Reserve(s.budgets, owner.id, TierCapacity(min)).Ok?
            && (pool == OutOfMemory || (pool.Granted? && SumWraps(s.budgets, owner.id, TierCapacity(min))))
          else owner == Transit && pool.Granted?)
    case Transfer(h, from, to) =>
      && h in s.entries
      && (if to.Component? then
            && to.id in s.budgets
            && Reserve(s.budgets, to.id, |s.entries[h].memory|).Ok?
            && (s.CheckExclusive(h, from).Err? || (from != to && SumWraps(s.budgets, to.id, |s.entries[h].memory|)))
          else to == Transit && s.CheckExclusive(h, from).Ok?)
    case RegisterComponent(c, _) => OwnedBytes(s.entries, c) > 0
    case _ => false
  }

  lemma ListsAdd<K(!new)>(index: map<K, set<ResourceId>>, k: K, h: ResourceId)
    ensures forall l, g :: Lists(IndexAdd(index, k, h), l, g) <==> Lists(index, l, g) || (l == k && g == h)
  {
  }

  lemma ListsRemove<K(!new)>(index: map<K, set<ResourceId>>, k: K, h: ResourceId)
    ensures forall l, g :: Lists(IndexRemove(index, k, h), l, g) <==> Lists(index, l, g) && !(l == k && g == h)
  {
  }

  lemma AddKeeps(s: ManagerState, t: ManagerState, h: ResourceId, e: Entry)
    requires s.Consistent() && h !in s.entries && e.WellFormed()
    requires t.entries == s.entries[h := e]
    requires t.componentIndex == if e.owner.Component? then IndexAdd(s.componentIndex, e.owner.id, h) else s.componentIndex
    requires t.flowIndex == IndexAdd(s.flowIndex, e.flow, h)
    requires if e.owner.Component? then Ok(t.budgets) == Reserve(s.budgets, e.owner.id, |e.memory|) else t.budgets == s.budgets
    requires e.owner.Component? ==> !SumWraps(s.budgets, e.owner.id, |e.memory|)
    ensures t.Consistent()
  {
    assert t.ComponentIndexExact() by { if e.owner.Component? { ListsAdd(s.componentIndex, e.owner.id, h); } }
    assert t.FlowIndexExact() by { ListsAdd(s.flowIndex, e.flow, h); }
    forall c | c in t.budgets
      ensures t.budgets[c].used == OwnedBytes(t.entries, c)
    {
      OwnedBytesSet(s.entries, c, h, e);
    }
  }

  /** Removing one buffer from every structure that names it, and crediting its owner. */
  lemma RemoveKeeps(s: ManagerState, t: ManagerState, h: ResourceId)
    requires s.Consistent() && h in s.entries
    requires t.entries == s.entries - {h}
    requires var owner := s.entries[h].owner;
             && t.componentIndex == (if owner.Component? then IndexRemove(s.componentIndex, owner.id, h) else s.componentIndex)
             && t.budgets == if owner.Component? then Unreserve(s.budgets, owner.id, |s.entries[h].memory|) else s.budgets
    requires t.flowIndex == IndexRemove(s.flowIndex, s.entries[h].flow, h)
    ensures t.Consistent()
  {
    var e := s.entries[h];
    assert t.ComponentIndexExact() by { if e.owner.Component? { ListsRemove(s.componentIndex, e.owner.id, h); } }
    assert t.FlowIndexExact() by { ListsRemove(s.flowIndex, e.flow, h); }
    forall c | c in t.budgets
      ensures t.budgets[c].used == OwnedBytes(t.entries, c)
    {
      OwnedBytesSplit(s.entries, c, h);
    }
  }

  /** A change that leaves owner, flow and capacity of the entry alone. */
  lemma UpdateKeeps(s: ManagerState, t: ManagerState, h: ResourceId, e: Entry)
    requires s.Consistent() && h in s.entries && e.WellFormed()
    requires e.owner == s.entries[h].owner && e.flow == s.entries[h].flow && |e.memory| == |s.entries[h].memory|
    requires t.entries == s.entries[h := e]
    requires t.componentIndex == s.componentIndex && t.flowIndex == s.flowIndex && t.budgets == s.budgets
    ensures t.Consistent()
  {
    forall c | c in t.budgets
      ensures t.budgets[c].used == OwnedBytes(t.entries, c)
    {
      OwnedBytesSet(s.entries, c, h, e);
    }
  }

  lemma TierFits(min: nat)
    requires min <= MAX_BUFFER_SIZE
    ensures 0 < TierCapacity(min) <= MAX_BUFFER_SIZE < U64_RANGE && min <= TierCapacity(min)
  {
  }

  /** A charge of less than 2^64 bytes changes the usage; it is the sum exactly when that does not wrap. */
  lemma ReserveCharges(budgets: map<nat, Budget>, c: nat, bytes: nat)
    requires c in budgets && Reserve(budgets, c, bytes).Ok? && 0 < bytes < U64_RANGE
    ensures var after := Reserve(budgets, c, bytes).value;
            && after.Keys == budgets.Keys && after[c].used != budgets[c].used
            && (after[c].used == budgets[c].used + bytes <==> !SumWraps(budgets, c, bytes))
            && (forall d :: d in budgets && d != c ==> after[d] == budgets[d])
  {
    var sum := budgets[c].used + bytes;
    if sum < U64_RANGE {
      SmallRemainder(sum);
    } else {
      SameRemainder(sum, sum - U64_RANGE, 1);
      SmallRemainder(sum - U64_RANGE);
    }
  }

  lemma AllocateGranted(s: ManagerState, owner: OwnerId, min: nat, flow: nat, h: ResourceId)
    requires s.Consistent() && h !in s.entries && s.Allocate(owner, min, flow, Granted(h)).1.Ok?
    ensures s.Allocate(owner, min, flow, Granted(h)).0.Consistent() <==> !Disturbs(s, Allocate(owner, min, flow, Granted(h)))
  {
    var t := s.Allocate(owner, min, flow, Granted(h)).0;
    var e := Resource(Owned, owner, 0, ZeroBytes(TierCapacity(min)), 0, flow);
    TierFits(min);
    assert t.entries[h] == e;
    if owner == Transit {
      assert !t.entries[h].WellFormed();
    } else if owner.Component? && owner.id in s.budgets && SumWraps(s.budgets, owner.id, TierCapacity(min)) {
      ReserveCharges(s.budgets, owner.id, TierCapacity(min));
      OwnedBytesSet(s.entries, owner.id, h, e);
      assert t.budgets[owner.id].used != OwnedBytes(t.entries, owner.id);
    } else {
      AddKeeps(s, t, h, e);
    }
  }

  lemma AllocateKeeps(s: ManagerState, owner: OwnerId, min: nat, flow: nat, pool: PoolAnswer)
    requires s.Consistent() && (pool.Granted? ==> pool.id !in s.entries)
    ensures s.Allocate(owner, min, flow, pool).0.Consistent() <==> !Disturbs(s, Allocate(owner, min, flow, pool))
  {
    var (t, r) := s.Allocate(owner, min, flow, pool);
    if r.Ok? {
      AllocateGranted(s, owner, min, flow, pool.id);
    } else {
      AllocateRefused(s, owner, min, flow, pool);
    }
  }

  lemma AllocateRefused(s: ManagerState, owner: OwnerId, min: nat, flow: nat, pool: PoolAnswer)
    requires s.Consistent() && s.Allocate(owner, min, flow, pool).1.Err?
    ensures s.Allocate(owner, min, flow, pool).0.Consistent() <==> !Disturbs(s, Allocate(owner, min, flow, pool))
  {
    hide OwnedBytes, TierCapacity, ZeroBytes, ManagerState.ComponentIndexExact, ManagerState.FlowIndexExact;
    var t := s.Allocate(owner, min, flow, pool).0;
    if min <= MAX_BUFFER_SIZE && owner.Component? && owner.id in s.budgets && Reserve(s.budgets, owner.id, TierCapacity(min)).Ok? {
      TierFits(min);
      ReserveCharges(s.budgets, owner.id, TierCapacity(min));
      CreditUndoesReservation(s.budgets[owner.id].used, TierCapacity(min));
      if pool == OutOfMemory {
        assert t.budgets[owner.id].used != OwnedBytes(t.entries, owner.id);
      } else {
        assert t.budgets == s.budgets;
      }
    } else {
      assert t == s;
    }
  }

  lemma OwnedBytesMoves(entries: map<ResourceId, Entry>, h: ResourceId, to: OwnerId, c: nat)
    requires h in entries
    ensures var w := |entries[h].memory|;
            && OwnedBytes(entries, c) >= (if entries[h].owner == Component(c) then w else 0)
            && OwnedBytes(entries[h := entries[h].(owner := to)], c) ==
               OwnedBytes(entries, c) - (if entries[h].owner == Component(c) then w else 0) + (if to == Component(c) then w else 0)
  {
    hide OwnedBytes;
    OwnedBytesSet(entries, c, h, entries[h].(owner := to));
    OwnedBytesSplit(entries, c, h);
  }

  /** The usage of each registered component after a transfer that goes through. */
  lemma TransferUsage(s: ManagerState, t: ManagerState, h: ResourceId, from: OwnerId, to: OwnerId, c: nat)
    requires s.Consistent() && s.TransferOwnership(h, from, to) == (t, Ok(())) && c in s.budgets
    ensures c in t.budgets
    ensures var w := |s.entries[h].memory|; var used := s.budgets[c].used;
            && (from == Component(c) && to == Component(c) ==> t.budgets[c].used == used)
            && (from != Component(c) && to == Component(c) ==>
                  (t.budgets[c].used == used + w <==> !SumWraps(s.budgets, c, w)))
            && (from == Component(c) && to != Component(c) ==> t.budgets[c].used == used - w)
            && (from != Component(c) && to != Component(c) ==> t.budgets[c].used == used)
  {
    hide OwnedBytes, ManagerState.ComponentIndexExact, ManagerState.FlowIndexExact;
    var w := |s.entries[h].memory|;
    OwnedBytesMoves(s.entries, h, to, c);
    if to == Component(c) {
      ReserveCharges(s.budgets, c, w);
      CreditUndoesReservation(s.budgets[c].used, w);
    }
  }

  lemma TransferBudgets(s: ManagerState, t: ManagerState, h: ResourceId, from: OwnerId, to: OwnerId)
    requires s.Consistent() && s.TransferOwnership(h, from, to) == (t, Ok(()))
    ensures t.BudgetsExact() <==> !(to.Component? && from != to && SumWraps(s.budgets, to.id, |s.entries[h].memory|))
  {
    hide OwnedBytes, SumWraps, ManagerState.ComponentIndexExact, ManagerState.FlowIndexExact;
    forall c | c in t.budgets
      ensures t.budgets[c].used == OwnedBytes(t.entries, c) <==>
              !(to == Component(c) && from != to && SumWraps(s.budgets, c, |s.entries[h].memory|))
    {
      OwnedBytesMoves(s.entries, h, to, c);
      TransferUsage(s, t, h, from, to, c);
    }
    if to.Component? {
      WrapsNeedsBudget(s.budgets, to.id, |s.entries[h].memory|);
      if to.id in s.budgets {
        TransferUsage(s, t, h, from, to, to.id);
      }
    }
  }

  lemma WrapsNeedsBudget(budgets: map<nat, Budget>, c: nat, bytes: nat)
    ensures SumWraps(budgets, c, bytes) ==> c in budgets
  {
  }

  lemma TransferIndices(s: ManagerState, t: ManagerState, h: ResourceId, from: OwnerId, to: OwnerId)
    requires s.Consistent() && s.TransferOwnership(h, from, to) == (t, Ok(()))
    ensures t.ComponentIndexExact() && t.FlowIndexExact()
  {
    hide OwnedBytes;
    var dropped := if from.Component? then IndexRemove(s.componentIndex, from.id, h) else s.componentIndex;
    assert t.ComponentIndexExact() by {
      if from.Component? { ListsRemove(s.componentIndex, from.id, h); }
      if to.Component? { ListsAdd(dropped, to.id, h); }
    }
  }

  lemma TransferRefused(s: ManagerState, t: ManagerState, h: ResourceId, from: OwnerId, to: OwnerId, e: ResourceError)
    requires s.Consistent() && s.TransferOwnership(h, from, to) == (t, Err(e))
    ensures t.Consistent() <==> !Disturbs(s, Transfer(h, from, to))
  {
    hide OwnedBytes, ManagerState.ComponentIndexExact, ManagerState.FlowIndexExact;
    if h in s.entries && to.Component? && to.id in s.budgets && Reserve(s.budgets, to.id, |s.entries[h].memory|).Ok? {
      ReserveCharges(s.budgets, to.id, |s.entries[h].memory|);
      assert t.budgets[to.id].used != OwnedBytes(t.entries, to.id);
    } else {
      assert t == s;
    }
  }

  lemma TransferKeeps(s: ManagerState, h: ResourceId, from: OwnerId, to: OwnerId)
    requires s.Consistent()
    ensures s.TransferOwnership(h, from, to).0.Consistent() <==> !Disturbs(s, Transfer(h, from, to))
  {
    hide OwnedBytes, ManagerState.ComponentIndexExact, ManagerState.FlowIndexExact, ManagerState.BudgetsExact;
    var (t, r) := s.TransferOwnership(h, from, to);
    if r.Err? {
      TransferRefused(s, t, h, from, to, r.error);
    } else if to == Transit {
      assert !t.entries[h].WellFormed();
    } else {
      TransferBudgets(s, t, h, from, to);
      TransferIndices(s, t, h, from, to);
      if to.Component? { WrapsNeedsBudget(s.budgets, to.id, |s.entries[h].memory|); }
    }
  }

  lemma ReleaseKeeps(s: ManagerState, h: ResourceId, caller: OwnerId)
    requires s.Consistent()
    ensures s.Release(h, caller).0.Consistent()
  {
    var (t, r) := s.Release(h, caller);
    if r.Ok? {
      RemoveKeeps(s, t, h);
    }
  }

  lemma RegisterKeeps(s: ManagerState, c: nat, max: u64)
    requires s.Consistent()
    ensures s.RegisterComponent(c, max).Consistent() <==> OwnedBytes(s.entries, c) == 0
  {
    var t := s.RegisterComponent(c, max);
    assert t.budgets[c].used == 0;
    assert t.ComponentIndexExact() && t.FlowIndexExact();
  }

  lemma {:induction false} OwnedBytesWithout(entries: map<ResourceId, Entry>, gone: set<ResourceId>, c: nat)
    ensures OwnedBytes(entries - gone, c) + OwnedBytes(Restrict(entries, gone), c) == OwnedBytes(entries, c)
    decreases gone
  {
    if forall h :: h in entries ==> h !in gone {
      assert entries - gone == entries;
      assert Restrict(entries, gone) == map[];
    } else {
      var h :| h in gone && h in entries;
      OwnedBytesWithout(entries - {h}, gone - {h}, c);
      assert entries - {h} - (gone - {h}) == entries - gone;
      assert Restrict(entries, gone) - {h} == Restrict(entries - {h}, gone - {h});
      OwnedBytesSplit(entries, c, h);
      OwnedBytesSplit(Restrict(entries, gone), c, h);
    }
  }

  lemma ReclaimFlowBudgets(s: ManagerState, flow: nat, gone: set<ResourceId>)
    requires s.BudgetsExact() && gone == if flow in s.flowIndex then s.flowIndex[flow] else {}
    ensures s.ReclaimFlowBuffers(flow).BudgetsExact()
  {
    forall c | c in s.budgets
      ensures s.ReclaimFlowBuffers(flow).budgets[c].used == OwnedBytes(s.entries - gone, c)
    {
      OwnedBytesWithout(s.entries, gone, c);
    }
  }

  lemma ReclaimFlowKeeps(s: ManagerState, flow: nat)
    requires s.Consistent()
    ensures s.ReclaimFlowBuffers(flow).Consistent()
    ensures forall h :: h in s.ReclaimFlowBuffers(flow).entries <==> h in s.entries && s.entries[h].flow != flow
  {
    var t := s.ReclaimFlowBuffers(flow);
    var gone := if flow in s.flowIndex then s.flowIndex[flow] else {};
    assert forall h :: h in gone <==> Lists(s.flowIndex, flow, h);
    assert t.ComponentIndexExact() by {
      assert forall c, h :: Lists(t.componentIndex, c, h) <==> Lists(s.componentIndex, c, h) && h !in gone;
    }
    assert t.FlowIndexExact() by {
      assert forall f, h :: Lists(t.flowIndex, f, h) <==> Lists(s.flowIndex, f, h) && f != flow;
    }
    assert t.BudgetsExact() by { ReclaimFlowBudgets(s, flow, gone); }
  }

  lemma {:induction false} NothingOwned(entries: map<ResourceId, Entry>, c: nat)
    requires forall h :: h in entries ==> entries[h].owner != Component(c)
    ensures OwnedBytes(entries, c) == 0
    decreases |entries|
  {
    if entries != map[] {
      var h :| h in entries;
      OwnedBytesSplit(entries, c, h);
      NothingOwned(entries - {h}, c);
    }
  }

  lemma ForceReclaimFlowIndex(s: ManagerState, c: nat, gone: set<ResourceId>)
    requires s.FlowIndexExact() && gone == if c in s.componentIndex then s.componentIndex[c] else {}
    ensures s.ForceReclaim(c).FlowIndexExact()
  {
    var t := s.ForceReclaim(c);
    forall f, h
      ensures Lists(t.flowIndex, f, h) <==> h in t.entries && t.entries[h].flow == f
    {
      assert Lists(s.flowIndex, f, h) <==> h in s.entries && s.entries[h].flow == f;
      assert f in s.flowIndex ==> t.flowIndex[f] == s.flowIndex[f] - s.FlowAmong(gone, f);
    }
  }

  lemma ForceReclaimKeeps(s: ManagerState, c: nat)
    requires s.Consistent()
    ensures s.ForceReclaim(c).Consistent()
    ensures forall h :: h in s.ForceReclaim(c).entries <==> h in s.entries && s.entries[h].owner != Component(c)
  {
    var t := s.ForceReclaim(c);
    var gone := if c in s.componentIndex then s.componentIndex[c] else {};
    assert forall h :: h in gone <==> Lists(s.componentIndex, c, h);
    assert t.ComponentIndexExact() by {
      assert forall d, h :: Lists(t.componentIndex, d, h) <==> Lists(s.componentIndex, d, h) && d != c;
    }
    ForceReclaimFlowIndex(s, c, gone);
    forall d | d in t.budgets
      ensures t.budgets[d].used == OwnedBytes(t.entries, d)
    {
      OwnedBytesWithout(s.entries, gone, d);
      NothingOwned(Restrict(s.entries, gone), d);
    }
  }

  /** One entry changes, in what is neither indexed nor charged, or nothing does. */
  ghost predicate ChangesOne(s: ManagerState, t: ManagerState, h: ResourceId) {
    && t.componentIndex == s.componentIndex && t.flowIndex == s.flowIndex && t.budgets == s.budgets
    && (h !in s.entries ==> t.entries == s.entries)
    && (h in s.entries ==>
          && h in t.entries && t.entries == s.entries[h := t.entries[h]] && t.entries[h].WellFormed()
          && t.entries[h].owner == s.entries[h].owner && t.entries[h].flow == s.entries[h].flow
          && |t.entries[h].memory| == |s.entries[h].memory|)
  }

  lemma BorrowChanges(s: ManagerState, h: ResourceId)
    requires h in s.entries ==> s.entries[h].WellFormed()
    ensures ChangesOne(s, s.BorrowStart(h).0, h) && ChangesOne(s, s.BorrowEnd(h).0, h)
  {
  }

  lemma WriteChanges(s: ManagerState, h: ResourceId, caller: OwnerId, offset: nat, data: seq<byte>, flow: nat)
    requires h in s.entries ==> s.entries[h].WellFormed()
    ensures ChangesOne(s, s.WritePayload(h, caller, offset, data, flow).0, h)
  {
    hide Overwrite;
  }

  lemma InPlaceChanges(s: ManagerState, op: Op)
    requires (forall h :: h in s.entries ==> s.entries[h].WellFormed()) && (op.BorrowStart? || op.BorrowEnd? || op.Write?)
    ensures ChangesOne(s, InPlace(s, op), op.h)
  {
    hide ChangesOne, ManagerState.WritePayload, ManagerState.BorrowStart, ManagerState.BorrowEnd;
    if op.Write? {
      WriteChanges(s, op.h, op.caller, op.offset, op.data, op.flow);
    } else {
      BorrowChanges(s, op.h);
    }
  }

  function InPlace(s: ManagerState, op: Op): ManagerState
    requires op.BorrowStart? || op.BorrowEnd? || op.Write?
  {
    match op
    case BorrowStart(h) => s.BorrowStart(h).0
    case BorrowEnd(h) => s.BorrowEnd(h).0
    case Write(h, caller, offset, data, flow) => s.WritePayload(h, caller, offset, data, flow).0
  }

  lemma InPlaceKeeps(s: ManagerState, op: Op)
    requires s.Consistent() && (op.BorrowStart? || op.BorrowEnd? || op.Write?)
    ensures InPlace(s, op).Consistent()
  {
    hide InPlace, ManagerState.Consistent;
    ConsistentIsWellFormed(s);
    InPlaceChanges(s, op);
    if op.h in s.entries {
      UpdateKeeps(s, InPlace(s, op), op.h, InPlace(s, op).entries[op.h]);
    } else {
      SameBooks(s, InPlace(s, op));
    }
  }

  lemma ConsistentIsWellFormed(s: ManagerState)
    requires s.Consistent()
    ensures forall h :: h in s.entries ==> s.entries[h].WellFormed()
  {
  }

  lemma SameBooks(s: ManagerState, t: ManagerState)
    requires s.Consistent() && t.entries == s.entries
    requires t.componentIndex == s.componentIndex && t.flowIndex == s.flowIndex && t.budgets == s.budgets
    ensures t.Consistent()
  {
  }

  /** One call from a consistent state leaves a consistent state exactly when it is not one of `Disturbs`. */
  lemma OperationKeepsConsistency(s: ManagerState, op: Op)
    requires s.Consistent() && Possible(s, op)
    ensures Apply(s, op).Consistent() <==> !Disturbs(s, op)
  {
    match op
    case Allocate(owner, min, flow, pool) => AllocateKeeps(s, owner, min, flow, pool);
    case Release(h, caller) => ReleaseKeeps(s, h, caller);
    case Transfer(h, from, to) => TransferKeeps(s, h, from, to);
    case BorrowStart(h) => InPlaceKeeps(s, op);
    case BorrowEnd(h) => InPlaceKeeps(s, op);
    case Read(_, _, _, _) =>
    case Write(h, _, _, _, _) => InPlaceKeeps(s, op);
    case RegisterFlow(_) =>
    case RegisterComponent(c, max) => RegisterKeeps(s, c, max);
    case ReclaimFlow(flow) => ReclaimFlowKeeps(s, flow);
    case ForceReclaim(c) => ForceReclaimKeeps(s, c);
  }

  /** The documented invariant that usage equals what is owned fails after one allocation the pool cannot
      serve: the component owns nothing, is charged a whole tier, and its budget is used up. */
  lemma OutOfMemoryLeaksReservation(h: ResourceId)
    ensures var s := EMPTY.RegisterComponent(1, 256);
            var (t, r) := s.Allocate(Component(1), 100, 0, OutOfMemory);
            && s.Consistent() && r == Err(AllocationFailed)
            && t.entries == map[] && t.budgets[1].used == 256 && !t.Consistent()
            && t.Allocate(Component(1), 1, 0, Granted(h)).1 == Err(BudgetExceeded)
  {
    var s := EMPTY.RegisterComponent(1, 256);
    EmptyIsConsistent();
    RegisterKeeps(EMPTY, 1, 256);
    AllocateKeeps(s, Component(1), 100, 0, OutOfMemory);
  }

  lemma EmptyIsConsistent()
    ensures EMPTY.Consistent()
  {
  }

  // ---------------------------------------------------------------------------
  // Runs, and the end of a flow
  // ---------------------------------------------------------------------------

  const EMPTY := ManagerState(map[], map[], map[], map[], map[])

  ghost predicate Undisturbed(s: ManagerState, ops: seq<Op>)
    requires s.Consistent()
    decreases |ops|
  {
    ops != [] ==>
      && Possible(s, ops[0])
      && !Disturbs(s, ops[0])
      && (OperationKeepsConsistency(s, ops[0]); Undisturbed(Apply(s, ops[0]), ops[1..]))
  }

  ghost function Run(s: ManagerState, ops: seq<Op>): (t: ManagerState)
    requires s.Consistent() && Undisturbed(s, ops)
    ensures t.Consistent()
    decreases |ops|
  {
    if ops == [] then s
    else
      OperationKeepsConsistency(s, ops[0]);
      Run(Apply(s, ops[0]), ops[1..])
  }

  // ---------------------------------------------------------------------------
  // Without budgets
  // ---------------------------------------------------------------------------

  lemma IndexedIsUnbudgeted(s: ManagerState)
    ensures s.Indexed() <==> s.Unbudgeted().Consistent()
  {
    var u := s.Unbudgeted();
    assert s.ComponentIndexExact() <==> u.ComponentIndexExact();
    assert s.FlowIndexExact() <==> u.FlowIndexExact();
  }

  lemma ReleaseKeepsIndices(s: ManagerState, h: ResourceId, caller: OwnerId)
    requires s.Indexed()
    ensures s.Release(h, caller).0.Indexed()
  {
    hide ManagerState.Indexed, ManagerState.Consistent;
    var t := s.Release(h, caller).0;
    assert t.Unbudgeted() == s.Unbudgeted().Release(h, caller).0;
    IndexedIsUnbudgeted(s);
    IndexedIsUnbudgeted(t);
    ReleaseKeeps(s.Unbudgeted(), h, caller);
  }

  lemma HandOverKeepsIndices(s: ManagerState, h: ResourceId, from: OwnerId)
    requires s.Indexed()
    ensures s.TransferOwnership(h, from, Host).0.Indexed()
  {
    hide ManagerState.Indexed, ManagerState.Consistent;
    var t := s.TransferOwnership(h, from, Host).0;
    assert t.Unbudgeted() == s.Unbudgeted().TransferOwnership(h, from, Host).0;
    IndexedIsUnbudgeted(s);
    IndexedIsUnbudgeted(t);
    TransferKeeps(s.Unbudgeted(), h, from, Host);
  }

  /** An allocation keeps the indices exact even when the pool has no memory for it. */
  lemma AllocateKeepsIndices(s: ManagerState, owner: OwnerId, min: nat, flow: nat, pool: PoolAnswer)
    requires s.Indexed() && owner != Transit && (pool.Granted? ==> pool.id !in s.entries)
    ensures s.Allocate(owner, min, flow, pool).0.Indexed()
  {
    hide ManagerState.Indexed, ManagerState.Consistent, TierCapacity;
    var (t, r) := s.Allocate(owner, min, flow, pool);
    IndexedIsUnbudgeted(s);
    IndexedIsUnbudgeted(t);
    if r.Ok? {
      assert t.Unbudgeted() == s.Unbudgeted().Allocate(owner, min, flow, pool).0;
      AllocateKeeps(s.Unbudgeted(), owner, min, flow, pool);
    } else {
      assert t.Unbudgeted() == s.Unbudgeted();
    }
  }

  lemma WriteKeepsIndices(s: ManagerState, h: ResourceId, caller: OwnerId, offset: nat, data: seq<byte>, flow: nat)
    requires s.Indexed()
    ensures s.WritePayload(h, caller, offset, data, flow).0.Indexed()
  {
    hide ManagerState.Indexed, ManagerState.Consistent;
    var t := s.WritePayload(h, caller, offset, data, flow).0;
    assert t.Unbudgeted() == s.Unbudgeted().WritePayload(h, caller, offset, data, flow).0;
    IndexedIsUnbudgeted(s);
    IndexedIsUnbudgeted(t);
    InPlaceKeeps(s.Unbudgeted(), Op.Write(h, caller, offset, data, flow));
  }

  lemma SweepUnbudgeted(s: ManagerState, flow: nat)
    ensures s.ReclaimFlowBuffers(flow).Unbudgeted() == s.Unbudgeted().ReclaimFlowBuffers(flow)
  {
    hide OwnedBytes;
    assert s.Unbudgeted().ReclaimFlowBuffers(flow).budgets == map[];
  }

  lemma FlowSweepIsExact(s: ManagerState, flow: nat)
    requires s.Indexed()
    ensures var t := s.ReclaimFlowBuffers(flow);
            && t.Indexed() && (s.BudgetsExact() ==> t.BudgetsExact()) && t.budgets.Keys == s.budgets.Keys
            && (forall h :: h in t.entries <==> h in s.entries && s.entries[h].flow != flow)
  {
    hide ManagerState.Indexed, ManagerState.Consistent, ManagerState.BudgetsExact;
    IndexedIsUnbudgeted(s);
    IndexedIsUnbudgeted(s.ReclaimFlowBuffers(flow));
    SweepUnbudgeted(s, flow);
    ReclaimFlowKeeps(s.Unbudgeted(), flow);
    if s.BudgetsExact() {
      ReclaimFlowBudgets(s, flow, if flow in s.flowIndex then s.flowIndex[flow] else {});
    }
  }

  lemma ComponentSweepIsExact(s: ManagerState, c: nat)
    requires s.Indexed()
    ensures var t := s.ForceReclaim(c);
            && t.Indexed() && (s.BudgetsExact() ==> t.BudgetsExact()) && t.budgets.Keys == s.budgets.Keys - {c}
            && (forall h :: h in t.entries <==> h in s.entries && s.entries[h].owner != Component(c))
  {
    hide ManagerState.Indexed, ManagerState.BudgetsExact;
    IndexedIsUnbudgeted(s);
    IndexedIsUnbudgeted(s.ForceReclaim(c));
    assert s.ForceReclaim(c).Unbudgeted() == s.Unbudgeted().ForceReclaim(c);
    ForceReclaimKeeps(s.Unbudgeted(), c);
    if s.BudgetsExact() {
      ForceReclaimKeeps(s, c);
    }
  }

  /** The coordinator's clean-up of a terminal flow: the component sweep for every stage, then the flow sweep. */
  ghost function ReapFlow(s: ManagerState, flow: nat, stages: seq<nat>): ManagerState
    decreases |stages|
  {
    if stages == [] then s.ReclaimFlowBuffers(flow) else ReapFlow(s.ForceReclaim(stages[0]), flow, stages[1..])
  }

  /** Reaping a flow removes exactly the buffers of the flow and those that some component of its stages owns,
      whichever flow they are of, and with the latter the components' budgets. */
  lemma {:induction false} ReapFlowIsExact(s: ManagerState, flow: nat, stages: seq<nat>)
    requires s.Indexed()
    ensures var t := ReapFlow(s, flow, stages);
            && t.Indexed() && (s.BudgetsExact() ==> t.BudgetsExact()) && t.ledger == s.ledger
            && (forall h :: h in t.entries <==>
                  h in s.entries && s.entries[h].flow != flow && forall c :: c in stages ==> s.entries[h].owner != Component(c))
            && (forall h :: h in t.entries ==> t.entries[h] == s.entries[h])
            && (forall c :: c in t.budgets <==> c in s.budgets && c !in stages)
    decreases |stages|
  {
    hide ManagerState.Indexed, ManagerState.BudgetsExact;
    if stages == [] {
      FlowSweepIsExact(s, flow);
    } else {
      ComponentSweepIsExact(s, stages[0]);
      ReapFlowIsExact(s.ForceReclaim(stages[0]), flow, stages[1..]);
      assert stages == [stages[0]] + stages[1..];
    }
  }

  /** A live buffer of another flow that a component of the reaped flow's stages owns. */
  ghost predicate Entangled(s: ManagerState, flow: nat, stages: seq<nat>) {
    exists h :: h in s.entries && s.entries[h].flow != flow && s.entries[h].owner.Component? && s.entries[h].owner.id in stages
  }

  /** The sweep is keyed by component ids that every flow numbers from one. Every buffer of the other flows
      survives it exactly when none of them is owned by a component that bears a reaped stage's id. */
  lemma OtherFlowsSurviveExactly(s: ManagerState, flow: nat, stages: seq<nat>)
    requires s.Indexed()
    ensures (forall h :: h in s.entries && s.entries[h].flow != flow ==> h in ReapFlow(s, flow, stages).entries) <==>
            !Entangled(s, flow, stages)
  {
    hide ManagerState.Indexed, ReapFlow;
    ReapFlowIsExact(s, flow, stages);
  }
}
