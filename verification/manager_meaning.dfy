/** What every operation of the resource manager answers, and what it leaves, said of the state before it. */
module ManagerMeaning {
  import opened Slab
  import opened ManagerSpec

  // ---------------------------------------------------------------------------
  // Capacities and budgets
  // ---------------------------------------------------------------------------

  /** The least of the pool's sizes that holds the request, or the request itself when none does. */
  predicate LeastSize(requested: nat, capacity: nat) {
    var sizes := {256, 4096, 65536, 1048576};
    && requested <= capacity
    && (if requested > 1048576 then capacity == requested else capacity in sizes && forall s :: s in sizes && requested <= s ==> capacity <= s)
  }

  lemma CapacityIsLeastSize(requested: nat, capacity: nat)
    ensures LeastSize(requested, capacity) <==> capacity == TierCapacity(requested)
  {
  }

  /** A registered component would go over its limit. */
  predicate OverLimit(m: ManagerState, owner: OwnerId, bytes: nat) {
    owner.Component? && owner.id in m.budgets && (m.budgets[owner.id].used + bytes) % 0x1_0000_0000_0000_0000 > m.budgets[owner.id].max
  }

  /** The owner's usage is up by `bytes`, modulo 2^64, and nothing else about the budgets is different. */
  ghost predicate Charged(was: map<nat, Budget>, now: map<nat, Budget>, owner: OwnerId, bytes: nat) {
    && now.Keys == was.Keys
    && forall c :: c in was ==>
         now[c].max == was[c].max && now[c].used == if owner == Component(c) then (was[c].used + bytes) % 0x1_0000_0000_0000_0000 else was[c].used
  }

  lemma ReserveCharges(budgets: map<nat, Budget>, c: nat, bytes: nat)
    ensures var r := Reserve(budgets, c, bytes);
            && (r.Err? <==> c in budgets && (budgets[c].used + bytes) % 0x1_0000_0000_0000_0000 > budgets[c].max)
            && (r.Err? ==> r.error == BudgetExceeded)
            && (r.Ok? ==> Charged(budgets, r.value, Component(c), bytes))
  {
  }

  lemma UnreserveCredits(budgets: map<nat, Budget>, c: nat, bytes: nat)
    ensures Charged(Unreserve(budgets, c, bytes), budgets, Component(c), bytes)
  {
    if c in budgets {
      CreditIsUndone(budgets[c].used, bytes);
    }
  }

  /** Charging again what was credited leaves the usage as it was. */
  lemma CreditIsUndone(used: u64, bytes: nat)
    ensures (Wrapping(used, bytes) + bytes) % U64_RANGE == used
  {
    SmallRemainder(used);
    if used < bytes {
      var w, q := (used - bytes) % U64_RANGE, (used - bytes) / U64_RANGE;
      assert used - bytes == q * U64_RANGE + w;
      SameRemainder(w + bytes, used, -q);
    }
  }

  // ---------------------------------------------------------------------------
  // Allocation, release and transfer
  // ---------------------------------------------------------------------------

  /** A new buffer: empty, all zeros, the owner's alone. */
  ghost predicate Blank(e: Entry, owner: OwnerId, flow: nat) {
    && e.state == Owned && e.owner == owner && e.borrowCount == 0 && e.flow == flow && e.payloadLen == 0
    && forall i :: 0 <= i < |e.memory| ==> e.memory[i] == 0
  }

  lemma AllocateAnswers(m: ManagerState, owner: OwnerId, requested: nat, flow: nat, pool: PoolAnswer, capacity: nat)
    requires LeastSize(requested, capacity)
    ensures var (n, r) := m.Allocate(owner, requested, flow, pool);
            && n.ledger == m.ledger
            && (requested > 16 * 1024 * 1024 ==> r == Err(CapacityExceeded) && n == m)
            && (requested <= 16 * 1024 * 1024 && OverLimit(m, owner, capacity) ==> r == Err(BudgetExceeded) && n == m)
            && (requested <= 16 * 1024 * 1024 && !OverLimit(m, owner, capacity) ==>
                  match pool
                  case OutOfMemory =>
                    && r == Err(AllocationFailed) && Charged(m.budgets, n.budgets, owner, capacity)
                    && n == m.(budgets := n.budgets)
                  case TableIsFull => r == Err(AllocationFailed) && n == m
                  case Granted(h) =>
                    && r == Ok(h) && Charged(m.budgets, n.budgets, owner, capacity)
                    && h in n.entries && n.entries == m.entries[h := n.entries[h]]
                    && Blank(n.entries[h], owner, flow) && |n.entries[h].memory| == capacity)
  {
    hide Reserve, Unreserve, Wrapping, TierCapacity, LeastSize, IndexAdd;
    CapacityIsLeastSize(requested, capacity);
    if owner.Component? {
      ReserveCharges(m.budgets, owner.id, capacity);
      ReserveIsUndone(m.budgets, owner.id, capacity);
    }
  }

  lemma ReserveIsUndone(budgets: map<nat, Budget>, c: nat, bytes: nat)
    ensures var r := Reserve(budgets, c, bytes); r.Ok? ==> Unreserve(r.value, c, bytes) == budgets
  {
    hide Wrapping;
    if c in budgets {
      CreditUndoesReservation(budgets[c].used, bytes);
    }
  }

  /** Why `caller` may not give the buffer up, if it may not. */
  ghost predicate Refuses(m: ManagerState, h: ResourceId, caller: OwnerId, e: ResourceError) {
    if h !in m.entries then e == InvalidHandle
    else if m.entries[h].state == Borrowed then e == BorrowsOutstanding
    else m.entries[h].owner != caller && e == NotOwner
  }

  lemma CheckAnswers(m: ManagerState, h: ResourceId, caller: OwnerId)
    requires h in m.entries ==> m.entries[h].WellFormed()
    ensures var r := m.CheckExclusive(h, caller);
            && (r.Err? ==> Refuses(m, h, caller, r.error))
            && (r.Ok? ==> h in m.entries && m.entries[h].state == Owned && m.entries[h].owner == caller && r.value == m.entries[h])
  {
  }

  /** A release goes through exactly for the sole owner of a buffer nobody borrows, and then only the buffer is
      gone and its bytes are credited. */
  lemma ReleaseAnswers(m: ManagerState, h: ResourceId, caller: OwnerId)
    requires h in m.entries ==> m.entries[h].WellFormed()
    ensures var (n, r) := m.Release(h, caller);
            && (r.Ok? <==> h in m.entries && m.entries[h].state == Owned && m.entries[h].owner == caller)
            && (r.Err? ==> Refuses(m, h, caller, r.error) && n == m)
            && (r.Ok? ==> n.entries == m.entries - {h} && Charged(n.budgets, m.budgets, caller, |m.entries[h].memory|))
            && n.ledger == m.ledger
  {
    hide Wrapping;
    CheckAnswers(m, h, caller);
    if caller.Component? && h in m.entries {
      UnreserveCredits(m.budgets, caller.id, |m.entries[h].memory|);
    }
  }

  /** A transfer goes through exactly for the sole owner of a buffer nobody borrows, to a recipient that can
      afford it; then only the owner of the buffer is different. */
  lemma TransferAnswers(m: ManagerState, h: ResourceId, from: OwnerId, to: OwnerId)
    requires h in m.entries ==> m.entries[h].WellFormed()
    ensures var (n, r) := m.TransferOwnership(h, from, to);
            && (r.Ok? <==> h in m.entries && !OverLimit(m, to, |m.entries[h].memory|)
                           && m.entries[h].state == Owned && m.entries[h].owner == from)
            && (h !in m.entries ==> r == Err(InvalidHandle))
            && (h in m.entries && OverLimit(m, to, |m.entries[h].memory|) ==> r == Err(BudgetExceeded))
            && (h in m.entries && !OverLimit(m, to, |m.entries[h].memory|) && r.Err? ==> Refuses(m, h, from, r.error))
            && n.ledger == m.ledger
            && (r.Ok? ==> n.entries == m.entries[h := m.entries[h].(owner := to)])
            && (r.Err? ==> n.entries == m.entries && n.componentIndex == m.componentIndex && n.flowIndex == m.flowIndex)
  {
    hide Reserve, Unreserve, IndexAdd, IndexRemove, ManagerState.CheckExclusive;
    CheckAnswers(m, h, from);
    if h in m.entries && to.Component? {
      ReserveCharges(m.budgets, to.id, |m.entries[h].memory|);
    }
  }

  // ---------------------------------------------------------------------------
  // Borrows
  // ---------------------------------------------------------------------------

  /** `n` is `m` with `count` borrows of the buffer under way. */
  ghost predicate Lent(m: ManagerState, n: ManagerState, h: ResourceId, count: nat) {
    && h in m.entries && m.entries[h].state == Owned && m.entries[h].borrowCount == 0
    && h in n.entries && n == m.(entries := m.entries[h := n.entries[h]])
    && n.entries[h] == m.entries[h].(borrowCount := count, state := if count == 0 then Owned else Borrowed)
  }

  lemma LendOne(m: ManagerState, n: ManagerState, h: ResourceId, count: nat)
    requires Lent(m, n, h, count)
    ensures n.BorrowStart(h).1 == Ok(()) && Lent(m, n.BorrowStart(h).0, h, count + 1)
  {
  }

  lemma ReturnOne(m: ManagerState, n: ManagerState, h: ResourceId, count: nat)
    requires Lent(m, n, h, count)
    ensures count > 0 ==> n.BorrowEnd(h).1 == Ok(()) && Lent(m, n.BorrowEnd(h).0, h, count - 1)
    ensures count == 0 ==> n.BorrowEnd(h) == (m, Err(InvalidHandle)) && n == m
    ensures count > 0 ==> forall caller :: n.Release(h, caller) == (n, Err(BorrowsOutstanding))
  {
    if count == 0 {
      assert m.entries[h := m.entries[h]] == m.entries;
    }
  }

  /** Borrows started (true) and ended (false), in order. */
  function Borrows(m: ManagerState, h: ResourceId, calls: seq<bool>): ManagerState
    decreases |calls|
  {
    if calls == [] then m
    else Borrows(if calls[0] then m.BorrowStart(h).0 else m.BorrowEnd(h).0, h, calls[1..])
  }

  /** How many are under way after them; an end without a start is refused. */
  function UnderWay(count: nat, calls: seq<bool>): nat
    decreases |calls|
  {
    if calls == [] then count
    else UnderWay(if calls[0] then count + 1 else if count == 0 then 0 else count - 1, calls[1..])
  }

  /** Whatever the order of starts and ends, the buffer is lent as often as is under way; when that is never, the
      state is as it was, and until then nobody can give the buffer up. */
  lemma {:induction false} BorrowsBalance(m: ManagerState, n: ManagerState, h: ResourceId, count: nat, calls: seq<bool>)
    requires Lent(m, n, h, count)
    ensures Lent(m, Borrows(n, h, calls), h, UnderWay(count, calls))
    ensures UnderWay(count, calls) == 0 ==> Borrows(n, h, calls) == m
    ensures UnderWay(count, calls) > 0 ==> forall caller :: Borrows(n, h, calls).Release(h, caller).1 == Err(BorrowsOutstanding)
    decreases |calls|
  {
    hide Lent, ManagerState.BorrowStart, ManagerState.BorrowEnd, ManagerState.Release;
    LendOne(m, n, h, count);
    ReturnOne(m, n, h, count);
    if calls != [] {
      var next := if calls[0] then n.BorrowStart(h).0 else n.BorrowEnd(h).0;
      BorrowsBalance(m, next, h, if calls[0] then count + 1 else if count == 0 then 0 else count - 1, calls[1..]);
    }
  }

  /** A borrow can be started on any well-formed live buffer, and ended exactly on a borrowed one. */
  lemma BorrowAnswers(m: ManagerState, h: ResourceId)
    requires h in m.entries ==> m.entries[h].WellFormed()
    ensures m.BorrowStart(h).1 == if h in m.entries then Ok(()) else Err(InvalidHandle)
    ensures m.BorrowEnd(h).1 == if h in m.entries && m.entries[h].state == Borrowed then Ok(()) else Err(InvalidHandle)
  {
  }

  // ---------------------------------------------------------------------------
  // Payloads and the ledger
  // ---------------------------------------------------------------------------

  /** One copy of `bytes` bytes more is in the flow's entry, if it has one, and nothing else is different. */
  ghost predicate Logged(was: map<nat, CopyStats>, now: map<nat, CopyStats>, flow: nat, bytes: nat, toComponent: bool) {
    && now.Keys == was.Keys
    && (forall f :: f in was && f != flow ==> now[f] == was[f])
    && (flow in was ==>
          && now[flow].payloadBytes == was[flow].payloadBytes + bytes
          && now[flow].copyOps == was[flow].copyOps + 1
          && now[flow].hostToComponent == was[flow].hostToComponent + (if toComponent then 1 else 0)
          && now[flow].componentToHost == was[flow].componentToHost + (if toComponent then 0 else 1))
  }

  lemma ReadAnswers(m: ManagerState, h: ResourceId, offset: nat, length: nat, flow: nat)
    ensures var (n, r) := m.ReadPayload(h, offset, length, flow);
            && n == m.(ledger := n.ledger)
            && (h !in m.entries ==> r == Err(InvalidHandle))
            && (h in m.entries && offset + length > |m.entries[h].Payload()| ==> r == Err(OutOfBounds))
            && (h in m.entries && offset + length <= |m.entries[h].Payload()| ==>
                  r == Ok(m.entries[h].Payload()[offset..offset + length]) && Logged(m.ledger, n.ledger, flow, length, true))
            && (r.Err? ==> n == m)
  {
    if h in m.entries && offset + length <= m.entries[h].payloadLen {
      var e := m.entries[h];
      assert e.memory[..e.payloadLen][offset..offset + length] == e.memory[offset..offset + length];
    }
  }

  /** `data` is in memory from `offset` on, every other byte is as it was, and the payload reaches as far as it did
      or as the data does. */
  ghost predicate Written(was: Entry, now: Entry, offset: nat, data: seq<byte>) {
    && now == was.(memory := now.memory, payloadLen := now.payloadLen)
    && |now.memory| == |was.memory| && offset + |data| <= |was.memory|
    && (forall i :: 0 <= i < |was.memory| ==>
          now.memory[i] == if offset <= i < offset + |data| then data[i - offset] else was.memory[i])
    && now.payloadLen == if offset + |data| > was.payloadLen then offset + |data| else was.payloadLen
  }

  lemma OverwriteWrites(memory: seq<byte>, offset: nat, data: seq<byte>)
    requires offset + |data| <= |memory|
    ensures forall i :: 0 <= i < |memory| ==>
              Overwrite(memory, offset, data)[i] == if offset <= i < offset + |data| then data[i - offset] else memory[i]
  {
    assert Overwrite(memory, offset, data) == memory[..offset] + data + memory[offset + |data|..];
  }

  /** A write goes through exactly for the owner of a buffer nobody borrows, within its capacity. */
  lemma WriteAnswers(m: ManagerState, h: ResourceId, caller: OwnerId, offset: nat, data: seq<byte>, flow: nat)
    requires h in m.entries ==> m.entries[h].WellFormed()
    ensures var (n, r) := m.WritePayload(h, caller, offset, data, flow);
            && (h !in m.entries ==> r == Err(InvalidHandle))
            && (h in m.entries && m.entries[h].owner != caller ==> r == Err(NotOwner))
            && (h in m.entries && m.entries[h].owner == caller && m.entries[h].state == Borrowed ==> r == Err(BorrowsOutstanding))
            && (h in m.entries && m.entries[h].owner == caller && m.entries[h].state == Owned ==>
                  r == if offset + |data| <= |m.entries[h].memory| then Ok(()) else Err(CapacityExceeded))
            && (r.Err? ==> n == m)
            && (r.Ok? ==>
                  && h in n.entries && Written(m.entries[h], n.entries[h], offset, data)
                  && n == m.(entries := m.entries[h := n.entries[h]], ledger := n.ledger)
                  && Logged(m.ledger, n.ledger, flow, |data|, false))
  {
    if h in m.entries && offset + |data| <= |m.entries[h].memory| {
      OverwriteWrites(m.entries[h].memory, offset, data);
    }
  }

  lemma RegisterAnswers(m: ManagerState, flow: nat, c: nat, max: u64)
    ensures var n := m.RegisterFlow(flow);
            && n == m.(ledger := n.ledger) && n.ledger.Keys == m.ledger.Keys + {flow}
            && (forall f :: f in m.ledger ==> n.ledger[f] == m.ledger[f])
            && (flow !in m.ledger ==> n.ledger[flow] == CopyStats(0, 0, 0, 0))
    ensures var n := m.RegisterComponent(c, max);
            n == m.(budgets := n.budgets) && n.budgets == m.budgets[c := Budget(max, 0)]
  {
  }

  // ---------------------------------------------------------------------------
  // Limits
  // ---------------------------------------------------------------------------

  /** The same components are registered, with the limits they had. */
  ghost predicate SameLimits(was: map<nat, Budget>, now: map<nat, Budget>) {
    now.Keys == was.Keys && forall c :: c in was ==> now[c].max == was[c].max
  }

  lemma ReserveLimits(budgets: map<nat, Budget>, c: nat, bytes: nat)
    ensures var r := Reserve(budgets, c, bytes); r.Ok? ==> SameLimits(budgets, r.value)
    ensures SameLimits(budgets, Unreserve(budgets, c, bytes))
  {
    hide Wrapping;
  }

  lemma LimitsCompose(a: map<nat, Budget>, b: map<nat, Budget>, c: map<nat, Budget>)
    requires SameLimits(a, b) && SameLimits(b, c)
    ensures SameLimits(a, c)
  {
  }

  lemma AllocateLimits(m: ManagerState, owner: OwnerId, requested: nat, flow: nat, pool: PoolAnswer)
    ensures SameLimits(m.budgets, m.Allocate(owner, requested, flow, pool).0.budgets)
  {
    hide TierCapacity, Reserve, Unreserve, SameLimits, IndexAdd;
    SameAsIs(m.budgets);
    if owner.Component? {
      ReserveLimits(m.budgets, owner.id, TierCapacity(requested));
      var reserved := Reserve(m.budgets, owner.id, TierCapacity(requested));
      if reserved.Ok? {
        ReserveLimits(reserved.value, owner.id, TierCapacity(requested));
        LimitsCompose(m.budgets, reserved.value, Unreserve(reserved.value, owner.id, TierCapacity(requested)));
      }
    }
  }

  lemma SameAsIs(budgets: map<nat, Budget>)
    ensures SameLimits(budgets, budgets)
  {
  }

  lemma TransferLimits(m: ManagerState, h: ResourceId, from: OwnerId, to: OwnerId)
    ensures SameLimits(m.budgets, m.TransferOwnership(h, from, to).0.budgets)
  {
    hide Reserve, Unreserve, SameLimits, IndexAdd, IndexRemove, ManagerState.CheckExclusive;
    SameAsIs(m.budgets);
    if h in m.entries {
      var capacity := |m.entries[h].memory|;
      var reserved := if to.Component? then Reserve(m.budgets, to.id, capacity) else Ok(m.budgets);
      if to.Component? { ReserveLimits(m.budgets, to.id, capacity); }
      if from.Component? && reserved.Ok? {
        ReserveLimits(reserved.value, from.id, capacity);
        LimitsCompose(m.budgets, reserved.value, Unreserve(reserved.value, from.id, capacity));
      }
    }
  }

  lemma ReleaseLimits(m: ManagerState, h: ResourceId, caller: OwnerId)
    ensures SameLimits(m.budgets, m.Release(h, caller).0.budgets)
  {
    hide Unreserve, SameLimits, IndexRemove, ManagerState.CheckExclusive;
    SameAsIs(m.budgets);
    var checked := m.CheckExclusive(h, caller);
    if caller.Component? && checked.Ok? { ReserveLimits(m.budgets, caller.id, |checked.value.memory|); }
  }

  lemma SweepLimits(m: ManagerState, flow: nat, c: nat)
    ensures SameLimits(m.budgets, m.ReclaimFlowBuffers(flow).budgets)
    ensures m.ForceReclaim(c).budgets == m.budgets - {c}
  {
    hide Wrapping, OwnedBytes, Restrict;
  }

  /** A component keeps the limit it was registered with for as long as it is registered. */
  lemma LimitsStay(m: ManagerState, owner: OwnerId, other: OwnerId, h: ResourceId, requested: nat, flow: nat, pool: PoolAnswer, c: nat)
    ensures SameLimits(m.budgets, m.Allocate(owner, requested, flow, pool).0.budgets)
    ensures SameLimits(m.budgets, m.Release(h, owner).0.budgets)
    ensures SameLimits(m.budgets, m.TransferOwnership(h, owner, other).0.budgets)
    ensures SameLimits(m.budgets, m.ReclaimFlowBuffers(flow).budgets)
    ensures m.ForceReclaim(c).budgets == m.budgets - {c}
  {
    AllocateLimits(m, owner, requested, flow, pool);
    ReleaseLimits(m, h, owner);
    TransferLimits(m, h, owner, other);
    SweepLimits(m, flow, c);
  }
}
