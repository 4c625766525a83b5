/** The resource manager of `torvyn-resources` (`manager.rs`, `ownership.rs`, `budget.rs`,
    `accounting.rs`): its state as a value, and what each operation does to it.
 */
module ManagerSpec {
  import opened Slab

  newtype byte = b: int | 0 <= b < 0x100

  datatype OwnerId = Host | Component(id: nat) | Transit

  datatype ResourceState = Pooled | Owned | Borrowed | Leased | InTransit | Freed

  /** One live resource. `memory` is the whole payload area, so its length is the payload capacity. */
  datatype Resource = Resource(
    state: ResourceState, owner: OwnerId, borrowCount: nat, memory: seq<byte>, payloadLen: nat, flow: nat)
  {
    predicate WellFormed() {
      && (state == Owned || state == Borrowed)
      && (state == Owned <==> borrowCount == 0)
      && owner != Transit
      && 0 < |memory| <= MAX_BUFFER_SIZE
    }

    function Payload(): seq<byte>
      requires payloadLen <= |memory|
    {
      memory[..payloadLen]
    }
  }

  type Entry = e: Resource | e.payloadLen <= |e.memory| witness Resource(Owned, Host, 0, [], 0, 0)

  datatype ResourceError =
    | InvalidHandle
    | NotOwner
    | BorrowsOutstanding
    | CapacityExceeded
    | OutOfBounds
    | BudgetExceeded
    | AllocationFailed

  datatype Result<+T> = Ok(value: T) | Err(error: ResourceError)

  const U64_RANGE: nat := 0x1_0000_0000_0000_0000

  type u64 = n: nat | n < U64_RANGE

  datatype Budget = Budget(max: u64, used: u64)

  datatype CopyReason = HostToComponent | ComponentToHost

  datatype CopyStats = CopyStats(payloadBytes: nat, copyOps: nat, hostToComponent: nat, componentToHost: nat) {
    function Record(bytes: nat, reason: CopyReason): CopyStats {
      CopyStats(
        payloadBytes + bytes, copyOps + 1,
        hostToComponent + (if reason == HostToComponent then 1 else 0),
        componentToHost + (if reason == ComponentToHost then 1 else 0))
    }
  }

  const NO_COPIES := CopyStats(0, 0, 0, 0)

  /** How the buffer pool and the slab answered an allocation: both live outside the manager's own logic. */
  datatype PoolAnswer = Granted(id: ResourceId) | TableIsFull | OutOfMemory

  const MAX_BUFFER_SIZE: nat := 16 * 1024 * 1024

  const HUGE: nat := 1024 * 1024

  /** The capacity of the smallest pool tier that holds `requested` bytes, or of the largest. */
  function TierSize(requested: nat): nat {
    if requested <= 256 then 256
    else if requested <= 4 * 1024 then 4 * 1024
    else if requested <= 64 * 1024 then 64 * 1024
    else HUGE
  }

  /** What the manager records for a buffer: its tier's capacity, or `requested` past the largest. */
  function TierCapacity(requested: nat): nat {
    if TierSize(requested) < requested then requested else TierSize(requested)
  }

  function ZeroBytes(n: nat): (zs: seq<byte>)
    ensures |zs| == n
  {
    seq(n, _ => 0)
  }

  function Overwrite(memory: seq<byte>, offset: nat, data: seq<byte>): (m: seq<byte>)
    requires offset + |data| <= |memory|
    ensures |m| == |memory|
    ensures m[..offset] == memory[..offset] && m[offset..offset + |data|] == data
    ensures m[offset + |data|..] == memory[offset + |data|..]
  {
    memory[..offset] + data + memory[offset + |data|..]
  }

  function IndexAdd<K>(index: map<K, set<ResourceId>>, k: K, h: ResourceId): map<K, set<ResourceId>> {
    index[k := (if k in index then index[k] else {}) + {h}]
  }

  function IndexRemove<K>(index: map<K, set<ResourceId>>, k: K, h: ResourceId): map<K, set<ResourceId>> {
    if k in index then index[k := index[k] - {h}] else index
  }

  /** The reverse index lists `h` under `k`. */
  predicate Lists<K>(index: map<K, set<ResourceId>>, k: K, h: ResourceId) {
    k in index && h in index[k]
  }

  /** Adds to a registered component's usage when its limit allows it; an unregistered one is not limited. The
      sum is a `u64` and wraps, as release builds have it. */
  function Reserve(budgets: map<nat, Budget>, c: nat, bytes: nat): Result<map<nat, Budget>> {
    if c !in budgets then Ok(budgets)
    else
      var total := (budgets[c].used + bytes) % U64_RANGE;
      if total > budgets[c].max then Err(BudgetExceeded) else Ok(budgets[c := budgets[c].(used := total)])
  }

  /** The sum a reservation makes leaves `u64`. */
  predicate SumWraps(budgets: map<nat, Budget>, c: nat, bytes: nat) {
    c in budgets && budgets[c].used + bytes >= U64_RANGE
  }

  /** The source subtracts with `fetch_sub`, which wraps below zero. */
  function Wrapping(used: u64, bytes: nat): u64 {
    if bytes <= used then used - bytes else (used - bytes) % U64_RANGE
  }

  function Unreserve(budgets: map<nat, Budget>, c: nat, bytes: nat): map<nat, Budget> {
    if c !in budgets then budgets
    else budgets[c := budgets[c].(used := Wrapping(budgets[c].used, bytes))]
  }

  datatype ManagerState = ManagerState(
    entries: map<ResourceId, Entry>,
    componentIndex: map<nat, set<ResourceId>>,
    flowIndex: map<nat, set<ResourceId>>,
    budgets: map<nat, Budget>,
    ledger: map<nat, CopyStats>)
  {
    function Unchanged<T>(e: ResourceError): (ManagerState, Result<T>) {
      (this, Err(e))
    }

    function PayloadLen(h: ResourceId): Result<nat> {
      if h in entries then Ok(entries[h].payloadLen) else Err(InvalidHandle)
    }

    /** Only flows registered with the ledger are counted. */
    function RecordCopy(flow: nat, bytes: nat, reason: CopyReason): ManagerState {
      if flow in ledger then this.(ledger := ledger[flow := ledger[flow].Record(bytes, reason)]) else this
    }

    function Allocate(owner: OwnerId, minCapacity: nat, flow: nat, pool: PoolAnswer): (ManagerState, Result<ResourceId>) {
      var capacity := TierCapacity(minCapacity);
      if minCapacity > MAX_BUFFER_SIZE then Unchanged(CapacityExceeded)
      else
        var reserved := if owner.Component? then Reserve(budgets, owner.id, capacity) else Ok(budgets);
        if reserved.Err? then Unchanged(reserved.error)
        else match pool
          case OutOfMemory => (this.(budgets := reserved.value), Err(AllocationFailed))
          case TableIsFull =>
            (this.(budgets := if owner.Component? then Unreserve(reserved.value, owner.id, capacity) else reserved.value),
             Err(AllocationFailed))
          case Granted(h) =>
            (this.(
               entries := entries[h := Resource(Owned, owner, 0, ZeroBytes(capacity), 0, flow)],
               componentIndex := if owner.Component? then IndexAdd(componentIndex, owner.id, h) else componentIndex,
               flowIndex := IndexAdd(flowIndex, flow, h),
               budgets := reserved.value),
             Ok(h))
    }

    /** The ownership checks `release_to_pool` and `begin_transfer` share. */
    function CheckExclusive(h: ResourceId, caller: OwnerId): Result<Entry> {
      if h !in entries then Err(InvalidHandle)
      else
        var e := entries[h];
        if e.state != Owned then Err(if e.state == Borrowed then BorrowsOutstanding else InvalidHandle)
        else if e.owner != caller then Err(NotOwner)
        else if e.borrowCount > 0 then Err(BorrowsOutstanding)
        else Ok(e)
    }

    function Release(h: ResourceId, caller: OwnerId): (ManagerState, Result<()>) {
      var checked := CheckExclusive(h, caller);
      if checked.Err? then Unchanged(checked.error)
      else
        (this.(
           entries := entries - {h},
           componentIndex := if caller.Component? then IndexRemove(componentIndex, caller.id, h) else componentIndex,
           flowIndex := IndexRemove(flowIndex, checked.value.flow, h),
           budgets := if caller.Component? then Unreserve(budgets, caller.id, |checked.value.memory|) else budgets),
         Ok(()))
    }

    /** The recipient's budget is charged before the ownership checks, and not credited back when they refuse. */
    function TransferOwnership(h: ResourceId, from: OwnerId, to: OwnerId): (ManagerState, Result<()>) {
      if h !in entries then Unchanged(InvalidHandle)
      else
        var capacity := |entries[h].memory|;
        var reserved := if to.Component? then Reserve(budgets, to.id, capacity) else Ok(budgets);
        if reserved.Err? then Unchanged(reserved.error)
        else
          var checked := CheckExclusive(h, from);
          if checked.Err? then (this.(budgets := reserved.value), Err(checked.error))
          else
            var dropped := if from.Component? then IndexRemove(componentIndex, from.id, h) else componentIndex;
            (this.(
               entries := entries[h := entries[h].(owner := to)],
               componentIndex := if to.Component? then IndexAdd(dropped, to.id, h) else dropped,
               budgets := if from.Component? then Unreserve(reserved.value, from.id, capacity) else reserved.value),
             Ok(()))
    }

    function BorrowStart(h: ResourceId): (ManagerState, Result<()>) {
      if h !in entries || !(entries[h].state == Owned || entries[h].state == Borrowed) then Unchanged(InvalidHandle)
      else (this.(entries := entries[h := entries[h].(borrowCount := entries[h].borrowCount + 1, state := Borrowed)]), Ok(()))
    }

    function BorrowEnd(h: ResourceId): (ManagerState, Result<()>) {
      if h !in entries || entries[h].state != Borrowed || entries[h].borrowCount == 0 then Unchanged(InvalidHandle)
      else
        var left := entries[h].borrowCount - 1;
        (this.(entries := entries[h := entries[h].(borrowCount := left, state := if left == 0 then Owned else Borrowed)]), Ok(()))
    }

    function ReadPayload(h: ResourceId, offset: nat, length: nat, flow: nat): (ManagerState, Result<seq<byte>>)
    {
      if h !in entries then Unchanged(InvalidHandle)
      else if offset + length > entries[h].payloadLen then Unchanged(OutOfBounds)
      else (RecordCopy(flow, length, HostToComponent), Ok(entries[h].memory[offset..offset + length]))
    }

    function WritePayload(h: ResourceId, caller: OwnerId, offset: nat, data: seq<byte>, flow: nat): (ManagerState, Result<()>) {
      if h !in entries then Unchanged(InvalidHandle)
      else
        var e := entries[h];
        if e.owner != caller then Unchanged(NotOwner)
        else if e.state != Owned then Unchanged(BorrowsOutstanding)
        else if offset + |data| > |e.memory| then Unchanged(CapacityExceeded)
        else
          var end := offset + |data|;
          var written := e.(memory := Overwrite(e.memory, offset, data), payloadLen := if end > e.payloadLen then end else e.payloadLen);
          (this.(entries := entries[h := written]).RecordCopy(flow, |data|, ComponentToHost), Ok(()))
    }

    function RegisterFlow(flow: nat): ManagerState {
      if flow in ledger then this else this.(ledger := ledger[flow := NO_COPIES])
    }

    /** Registration replaces whatever budget entry was there, so usage restarts at zero. */
    function RegisterComponent(c: nat, max: u64): ManagerState {
      this.(budgets := budgets[c := Budget(max, 0)])
    }

    /** The live buffers among `ids` that `owner` owns. */
    function OwnedAmong(ids: set<ResourceId>, owner: OwnerId): set<ResourceId> {
      set h | h in ids && h in entries && entries[h].owner == owner
    }

    function FlowAmong(ids: set<ResourceId>, flow: nat): set<ResourceId> {
      set h | h in ids && h in entries && entries[h].flow == flow
    }

    /** Half-way through the flow-keyed sweep: the buffers of `gone` went, whoever owned them, and each
        registered owner was credited. */
    ghost function Swept(flow: nat, gone: set<ResourceId>): ManagerState {
      this.(
        entries := entries - gone,
        componentIndex := map c | c in componentIndex :: componentIndex[c] - OwnedAmong(gone, Component(c)),
        flowIndex := flowIndex - {flow},
        budgets := map c | c in budgets ::
          budgets[c].(used := Wrapping(budgets[c].used, OwnedBytes(Restrict(entries, gone), c))))
    }

    /** The flow-keyed sweep: every live buffer the flow index names goes. */
    ghost function ReclaimFlowBuffers(flow: nat): ManagerState {
      Swept(flow, if flow in flowIndex then flowIndex[flow] else {})
    }

    /** Half-way through the component-keyed sweep. */
    function Dropped(c: nat, gone: set<ResourceId>): ManagerState {
      this.(
        entries := entries - gone,
        componentIndex := componentIndex - {c},
        flowIndex := map f | f in flowIndex :: flowIndex[f] - FlowAmong(gone, f))
    }

    /** The component-keyed sweep: every live buffer the component index names goes, and the component's
        budget with it. */
    function ForceReclaim(c: nat): ManagerState {
      Dropped(c, if c in componentIndex then componentIndex[c] else {}).(budgets := budgets - {c})
    }

    // -------------------------------------------------------------------------
    // What the operations keep
    // -------------------------------------------------------------------------

    ghost predicate ComponentIndexExact() {
      forall c, h :: Lists(componentIndex, c, h) <==> h in entries && entries[h].owner == Component(c)
    }

    ghost predicate FlowIndexExact() {
      forall f, h :: Lists(flowIndex, f, h) <==> h in entries && entries[h].flow == f
    }

    ghost predicate BudgetsExact() {
      forall c :: c in budgets ==> budgets[c].used == OwnedBytes(entries, c)
    }

    /** Both reverse indices name exactly the live buffers they should, and no entry is left half-way through
        a transfer. */
    ghost predicate Indexed() {
      && (forall h :: h in entries ==> entries[h].WellFormed())
      && ComponentIndexExact()
      && FlowIndexExact()
    }

    /** And every registered component is charged exactly the bytes it owns. */
    ghost predicate Consistent() {
      Indexed() && BudgetsExact()
    }

    /** The same buffers and indices, with nobody registered. */
    function Unbudgeted(): ManagerState {
      this.(budgets := map[])
    }
  }

  ghost function Restrict(entries: map<ResourceId, Entry>, keys: set<ResourceId>): map<ResourceId, Entry> {
    map h | h in entries && h in keys :: entries[h]
  }

  function Weight(e: Entry, c: nat): nat {
    if e.owner == Component(c) then |e.memory| else 0
  }

  /** The bytes of the buffers component `c` owns. */
  ghost function OwnedBytes(entries: map<ResourceId, Entry>, c: nat): nat {
    if entries == map[] then 0
    else
      var h :| h in entries;
      Weight(entries[h], c) + OwnedBytes(entries - {h}, c)
  }

  lemma {:induction false} OwnedBytesSplit(entries: map<ResourceId, Entry>, c: nat, h: ResourceId)
    requires h in entries
    ensures OwnedBytes(entries, c) == Weight(entries[h], c) + OwnedBytes(entries - {h}, c)
  {
    var p :| p in entries && OwnedBytes(entries, c) == Weight(entries[p], c) + OwnedBytes(entries - {p}, c);
    if p != h {
      OwnedBytesSplit(entries - {p}, c, h);
      OwnedBytesSplit(entries - {h}, c, p);
      assert entries - {p} - {h} == entries - {h} - {p};
    }
  }

  lemma OwnedBytesSet(entries: map<ResourceId, Entry>, c: nat, h: ResourceId, e: Entry)
    ensures OwnedBytes(entries[h := e], c) ==
            OwnedBytes(entries, c) - (if h in entries then Weight(entries[h], c) else 0) + Weight(e, c)
  {
    OwnedBytesSplit(entries[h := e], c, h);
    assert entries[h := e] - {h} == entries - {h};
    if h in entries {
      OwnedBytesSplit(entries, c, h);
    } else {
      assert entries - {h} == entries;
    }
  }

  // ---------------------------------------------------------------------------
  // The sweeps, one buffer at a time
  // ---------------------------------------------------------------------------

  /** Crediting twice is crediting the sum. */
  lemma WrappingTwice(used: u64, a: nat, b: nat)
    ensures Wrapping(Wrapping(used, a), b) == Wrapping(used, a + b)
  {
    if used < a {
      var w := (used - a) % U64_RANGE;
      var q := (used - a) / U64_RANGE;
      assert used - a == q * U64_RANGE + w;
      SameRemainder(used - (a + b), w - b, q);
      if b <= w {
        SmallRemainder(w - b);
      }
    }
  }

  /** Crediting undoes a reservation, even one whose sum wrapped. */
  lemma CreditUndoesReservation(used: u64, bytes: nat)
    ensures Wrapping((used + bytes) % 0x1_0000_0000_0000_0000, bytes) == used
  {
    var total := (used + bytes) % U64_RANGE;
    var q := (used + bytes) / U64_RANGE;
    assert used + bytes == q * U64_RANGE + total;
    SameRemainder(used, total - bytes, q);
    SmallRemainder(used);
    if bytes <= total {
      SmallRemainder(total - bytes);
    }
  }

  lemma SameRemainder(x: int, y: int, q: int)
    requires x == q * U64_RANGE + y
    ensures x % U64_RANGE == y % U64_RANGE
  {
    assert x == (q + y / U64_RANGE) * U64_RANGE + y % U64_RANGE;
  }

  lemma SmallRemainder(x: nat)
    requires x < U64_RANGE
    ensures x % U64_RANGE == x
  {
  }

  lemma RestrictGrows(entries: map<ResourceId, Entry>, gone: set<ResourceId>, h: ResourceId, c: nat)
    requires h !in gone
    ensures OwnedBytes(Restrict(entries, gone + {h}), c) ==
            OwnedBytes(Restrict(entries, gone), c) + if h in entries then Weight(entries[h], c) else 0
  {
    if h in entries {
      OwnedBytesSplit(Restrict(entries, gone + {h}), c, h);
      assert Restrict(entries, gone + {h}) - {h} == Restrict(entries, gone);
    } else {
      assert Restrict(entries, gone + {h}) == Restrict(entries, gone);
    }
  }

  /** What one turn of the flow sweep's loop does. */
  function SweepOne(s: ManagerState, h: ResourceId): ManagerState {
    if h !in s.entries then s
    else
      var e := s.entries[h];
      s.(
        entries := s.entries - {h},
        componentIndex := if e.owner.Component? then IndexRemove(s.componentIndex, e.owner.id, h) else s.componentIndex,
        budgets := if e.owner.Component? then Unreserve(s.budgets, e.owner.id, |e.memory|) else s.budgets)
  }

  lemma SweepOneBudgets(s: ManagerState, flow: nat, gone: set<ResourceId>, h: ResourceId)
    requires h !in gone
    ensures SweepOne(s.Swept(flow, gone), h).budgets == s.Swept(flow, gone + {h}).budgets
  {
    hide Wrapping, OwnedBytes, Restrict;
    forall c | c in s.budgets
      ensures SweepOne(s.Swept(flow, gone), h).budgets[c] == s.Swept(flow, gone + {h}).budgets[c]
    {
      RestrictGrows(s.entries, gone, h, c);
      if h in s.entries {
        WrappingTwice(s.budgets[c].used, OwnedBytes(Restrict(s.entries, gone), c), Weight(s.entries[h], c));
      }
    }
  }

  lemma SweepOneMore(s: ManagerState, flow: nat, gone: set<ResourceId>, h: ResourceId)
    requires h !in gone
    ensures SweepOne(s.Swept(flow, gone), h) == s.Swept(flow, gone + {h})
  {
    SweepOneBudgets(s, flow, gone, h);
    var x, y := SweepOne(s.Swept(flow, gone), h), s.Swept(flow, gone + {h});
    assert x.entries == y.entries;
    forall c | c in s.componentIndex
      ensures x.componentIndex[c] == y.componentIndex[c]
    {
    }
    assert x.componentIndex == y.componentIndex;
  }

  lemma SweepNone(s: ManagerState, flow: nat)
    ensures s.Swept(flow, {}) == s.(flowIndex := s.flowIndex - {flow})
  {
    assert Restrict(s.entries, {}) == map[];
    assert s.entries - {} == s.entries;
    forall c | c in s.componentIndex
      ensures s.Swept(flow, {}).componentIndex[c] == s.componentIndex[c]
    {
      assert s.OwnedAmong({}, Component(c)) == {};
    }
    assert s.Swept(flow, {}).componentIndex == s.componentIndex;
    assert s.Swept(flow, {}).budgets == s.budgets;
  }

  /** What one turn of the component sweep's loop does. */
  function DropOne(s: ManagerState, h: ResourceId): ManagerState {
    if h !in s.entries then s
    else s.(entries := s.entries - {h}, flowIndex := IndexRemove(s.flowIndex, s.entries[h].flow, h))
  }

  lemma DropOneMore(s: ManagerState, c: nat, gone: set<ResourceId>, h: ResourceId)
    requires h !in gone
    ensures DropOne(s.Dropped(c, gone), h) == s.Dropped(c, gone + {h})
  {
    var x, y := DropOne(s.Dropped(c, gone), h), s.Dropped(c, gone + {h});
    assert x.entries == y.entries;
    forall f | f in s.flowIndex
      ensures x.flowIndex[f] == y.flowIndex[f]
    {
    }
    assert x.flowIndex == y.flowIndex;
  }

  lemma DropNone(s: ManagerState, c: nat)
    ensures s.Dropped(c, {}) == s.(componentIndex := s.componentIndex - {c})
  {
    assert s.entries - {} == s.entries;
    forall f | f in s.flowIndex
      ensures s.Dropped(c, {}).flowIndex[f] == s.flowIndex[f]
    {
      assert s.FlowAmong({}, f) == {};
    }
    assert s.Dropped(c, {}).flowIndex == s.flowIndex;
  }
}
