/** One call of each of the three fixture components (`tests/test-components`): the echo source, the identity
    processor and the echo sink, as programs over the host functions. */
module StageCalls {
  import opened Wrappers
  import opened Slab
  import opened ManagerSpec
  import opened HostSpec
  import opened InvokerSpec

  /** The two table slots a call uses for its output, and the id the slab grants for it. */
  datatype Slots = Slots(draft: nat, out: nat, input: nat, h: ResourceId)

  /** Allocate, write once, freeze, and drop the mutable handle. */
  function MakeBuffer(data: seq<byte>, at: Slots): seq<GuestOp> {
    [ Allocate(if |data| == 0 then 1 else |data|, at.draft, Granted(at.h)),
      Write(at.draft, 0, data),
      Freeze(at.draft, at.out),
      DropMutable(at.draft) ]
  }

  function SourceProgram(data: seq<byte>, at: Slots): seq<GuestOp> {
    MakeBuffer(data, at)
  }

  /** `data` is what the read returned. */
  function ProcessorProgram(data: seq<byte>, at: Slots): seq<GuestOp> {
    [ReadAll(at.input)] + MakeBuffer(data, at)
  }

  function SinkProgram(at: Slots): seq<GuestOp> {
    [ReadAll(at.input)]
  }

  /** Between calls a stage's table is empty. */
  function Idle(c: nat, flow: nat, m: ManagerState): View {
    View(Store(c, flow, map[]), m)
  }

  /** The component is within its budget: it owns nothing, and one buffer for `bytes` bytes fits. */
  predicate Affords(m: ManagerState, c: nat, bytes: nat) {
    c in m.budgets ==> m.budgets[c].used == 0 && TierCapacity(bytes) <= m.budgets[c].max
  }

  /** A live buffer that the host owns and nobody borrows, holding `data`. */
  predicate Holds(m: ManagerState, h: ResourceId, data: seq<byte>) {
    && h in m.entries && m.entries[h].owner == Host && m.entries[h].state == Owned && m.entries[h].borrowCount == 0
    && m.entries[h].Payload() == data
  }

  predicate Usable(m: ManagerState, at: Slots) {
    at.h !in m.entries && at.h != FROZEN_SENTINEL && at.draft != at.out && at.input != at.draft && at.input != at.out
  }

  /** Nothing but `h` changed in the buffers, and no budget did. */
  ghost predicate Hands(m: ManagerState, n: ManagerState, h: ResourceId, data: seq<byte>) {
    && Holds(n, h, data)
    && n.entries == m.entries[h := n.entries[h]]
    && n.budgets == m.budgets
  }

  // ---------------------------------------------------------------------------
  // Making a buffer
  // ---------------------------------------------------------------------------

  /** A live buffer that component `c` owns, with its reservation on top of `before`. */
  ghost predicate Drafted(m: ManagerState, n: ManagerState, c: nat, h: ResourceId, capacity: nat) {
    && h in n.entries && n.entries == m.entries[h := n.entries[h]]
    && n.entries[h].owner == Component(c) && n.entries[h].state == Owned && n.entries[h].borrowCount == 0
    && |n.entries[h].memory| == capacity
    && Ok(n.budgets) == Reserve(m.budgets, c, capacity)
  }

  lemma AllocateDrafts(m: ManagerState, c: nat, flow: nat, bytes: nat, h: ResourceId)
    requires h !in m.entries && bytes <= MAX_BUFFER_SIZE && Affords(m, c, bytes)
    ensures var (n, r) := m.Allocate(Component(c), bytes, flow, Granted(h));
            && r == Ok(h) && Drafted(m, n, c, h, TierCapacity(bytes)) && n.ledger == m.ledger
            && n.entries[h].payloadLen == 0
  {
  }

  lemma WriteDrafts(m: ManagerState, n: ManagerState, c: nat, flow: nat, h: ResourceId, data: seq<byte>, capacity: nat)
    requires Drafted(m, n, c, h, capacity) && n.entries[h].payloadLen == 0 && |data| <= capacity
    ensures var (u, r) := n.WritePayload(h, Component(c), 0, data, flow);
            && r == Ok(()) && Drafted(m, u, c, h, capacity) && u.ledger == n.RecordCopy(flow, |data|, ComponentToHost).ledger
            && u.entries[h].Payload() == data
  {
  }

  lemma TransferHands(m: ManagerState, n: ManagerState, c: nat, h: ResourceId, capacity: nat)
    requires Drafted(m, n, c, h, capacity) && (c in m.budgets ==> m.budgets[c].used == 0)
    ensures var (u, r) := n.TransferOwnership(h, Component(c), Host);
            r == Ok(()) && Hands(m, u, h, n.entries[h].Payload()) && u.ledger == n.ledger
  {
  }

  /** The state the guest leaves when it returns: one immutable wrapper, on a buffer it still owns. */
  ghost predicate Made(v: View, t: View, data: seq<byte>, at: Slots) {
    && t.store == v.store.(table := v.store.table[at.out := Wrapper(Immutable, at.h, v.Owner())])
    && Drafted(v.mgr, t.mgr, v.store.component, at.h, TierCapacity(|data|))
    && t.mgr.entries[at.h].Payload() == data
    && t.mgr.ledger == v.mgr.RecordCopy(v.store.flow, |data|, ComponentToHost).ledger
  }

  lemma CapacityIsEnough(n: nat)
    ensures TierCapacity(n) >= n
  {
  }

  /** The four operations, one after the other. */
  lemma MakeBufferSteps(v: View, data: seq<byte>, at: Slots) returns (v1: View, v2: View, v3: View, v4: View)
    requires 0 < |data| <= MAX_BUFFER_SIZE && Affords(v.mgr, v.store.component, |data|) && Usable(v.mgr, at)
    requires at.draft !in v.store.table && at.out !in v.store.table
    ensures var ops := MakeBuffer(data, at);
            && v.Do(ops[0]) == (v1, Value(Handle(at.draft))) && v1.Do(ops[1]) == (v2, Value(Done))
            && v2.Do(ops[2]) == (v3, Value(Handle(at.out))) && v3.Do(ops[3]) == (v4, Value(Done))
    ensures Made(v, v4, data, at)
  {
    hide ManagerState.Allocate, ManagerState.WritePayload, ManagerState.Release, Drafted, Affords, TierCapacity;
    var ops, c, flow := MakeBuffer(data, at), v.store.component, v.store.flow;
    AllocateDrafts(v.mgr, c, flow, |data|, at.h);
    CapacityIsEnough(|data|);
    v1 := v.Do(ops[0]).0;
    WriteDrafts(v.mgr, v1.mgr, c, flow, at.h, data, TierCapacity(|data|));
    v2 := v1.Do(ops[1]).0;
    v3 := v2.Do(ops[2]).0;
    v4 := v3.Do(ops[3]).0;
    assert v4.store.table == v.store.table[at.out := Wrapper(Immutable, at.h, v.Owner())];
  }

  lemma MakeBufferMakes(v: View, data: seq<byte>, at: Slots)
    requires 0 < |data| <= MAX_BUFFER_SIZE && Affords(v.mgr, v.store.component, |data|) && Usable(v.mgr, at)
    requires at.draft !in v.store.table && at.out !in v.store.table
    ensures !RunGuest(v, MakeBuffer(data, at)).1
    ensures Made(v, RunGuest(v, MakeBuffer(data, at)).0, data, at)
  {
    hide View.Do, Made, Affords, Usable, RunGuest;
    var v1, v2, v3, v4 := MakeBufferSteps(v, data, at);
    RunFour(v, MakeBuffer(data, at));
  }

  lemma RunFour(v: View, ops: seq<GuestOp>)
    requires |ops| == 4
    requires var (v1, r1) := v.Do(ops[0]);
             var (v2, r2) := v1.Do(ops[1]);
             var (v3, r3) := v2.Do(ops[2]);
             var (v4, r4) := v3.Do(ops[3]);
             !r1.Trapped? && !r2.Trapped? && !r3.Trapped? && !r4.Trapped?
    ensures RunGuest(v, ops) == (v.Do(ops[0]).0.Do(ops[1]).0.Do(ops[2]).0.Do(ops[3]).0, false)
  {
    hide View.Do;
    var v1 := v.Do(ops[0]).0;
    var v2 := v1.Do(ops[1]).0;
    var v3 := v2.Do(ops[2]).0;
    var v4 := v3.Do(ops[3]).0;
    assert ops[1..][1..] == ops[2..] && ops[2..][1..] == ops[3..] && ops[3..][1..] == [];
    assert RunGuest(v4, []) == (v4, false);
    assert RunGuest(v3, ops[3..]) == (v4, false);
    assert RunGuest(v2, ops[2..]) == (v4, false);
    assert RunGuest(v1, ops[1..]) == (v4, false);
  }

  // ---------------------------------------------------------------------------
  // Whole calls
  // ---------------------------------------------------------------------------

  lemma EmitMade(v: View, t: View, data: seq<byte>, at: Slots)
    requires v.store.table == map[] && Made(v, t, data, at)
    requires v.store.component in v.mgr.budgets ==> v.mgr.budgets[v.store.component].used == 0
    ensures var (u, r) := EmitOutput(t, Some(at.out));
            && r == Completed(Some(at.h)) && u.store == v.store
            && Hands(v.mgr, u.mgr, at.h, data)
            && u.mgr.ledger == v.mgr.RecordCopy(v.store.flow, |data|, ComponentToHost).ledger
  {
    hide ManagerState.TransferOwnership, Drafted, Hands;
    TransferHands(v.mgr, t.mgr, v.store.component, at.h, TierCapacity(|data|));
    var n := t.mgr.TransferOwnership(at.h, v.Owner(), Host).0;
    assert t.store.table - {at.out} == map[];
  }

  /** A pull makes one buffer with the element's bytes, hands it to the host, and records one copy of them. */
  lemma SourceCall(c: nat, flow: nat, m: ManagerState, data: seq<byte>, at: Slots) returns (n: ManagerState)
    requires 0 < |data| <= MAX_BUFFER_SIZE && Affords(m, c, |data|) && Usable(m, at)
    ensures InvokePull(Idle(c, flow, m), DataSource, SourceProgram(data, at), Returned(Some(at.out))) ==
            (Idle(c, flow, n), Completed(Some(at.h)))
    ensures Hands(m, n, at.h, data)
    ensures n.ledger == m.RecordCopy(flow, |data|, ComponentToHost).ledger
  {
    hide RunGuest, EmitOutput, Drafted, Hands, TierCapacity;
    var v := Idle(c, flow, m);
    MakeBufferMakes(v, data, at);
    var t := RunGuest(v, SourceProgram(data, at)).0;
    EmitMade(v, t, data, at);
    n := EmitOutput(t, Some(at.out)).0.mgr;
  }

  lemma ReadInput(v: View, rep: nat, data: seq<byte>)
    requires v.Lookup(rep, Immutable).Some? && Holds(v.mgr, v.Lookup(rep, Immutable).value.handle, data) && data != []
    ensures v.ReadAll(rep) == (v.(mgr := v.mgr.RecordCopy(v.store.flow, |data|, HostToComponent)), Value(Bytes(data)))
  {
    var e := v.mgr.entries[v.Lookup(rep, Immutable).value.handle];
    assert e.memory[0..e.payloadLen] == e.Payload();
  }

  lemma ReclaimInput(v: View, rep: nat, h: ResourceId, data: seq<byte>)
    requires v.Lookup(rep, Immutable) == Some(Wrapper(Immutable, h, Host)) && Holds(v.mgr, h, data)
    ensures var (u, r) := Reclaim(v, rep);
            && r == Completed(()) && u.store == v.Delete(rep).store && u.mgr.entries == v.mgr.entries - {h}
            && u.mgr.budgets == v.mgr.budgets && u.mgr.ledger == v.mgr.ledger
  {
  }

  /** A push reads the element's bytes, returns its buffer to the pool, and records one copy of them. */
  lemma SinkCall(c: nat, flow: nat, m: ManagerState, h: ResourceId, data: seq<byte>, at: Slots) returns (n: ManagerState)
    requires Holds(m, h, data) && data != []
    ensures InvokePush(Idle(c, flow, m), DataSink, h, at.input, SinkProgram(at), Returned(Ready)) ==
            (Idle(c, flow, n), Completed(Ready))
    ensures Marshal(Idle(c, flow, m), h, at.input).ReadAll(at.input).1 == Value(Bytes(data))
    ensures n.entries == m.entries - {h} && n.budgets == m.budgets
    ensures n.ledger == m.RecordCopy(flow, |data|, HostToComponent).ledger
  {
    hide View.ReadAll, Reclaim;
    var v := Marshal(Idle(c, flow, m), h, at.input);
    ReadInput(v, at.input, data);
    var t := v.ReadAll(at.input).0;
    assert RunGuest(t, []) == (t, false);
    assert SinkProgram(at)[1..] == [];
    assert RunGuest(v, SinkProgram(at)) == (t, false);
    ReclaimInput(t, at.input, h, data);
    n := Reclaim(t, at.input).0.mgr;
    assert v.store.table - {at.input} == map[];
  }

  /** What the guest leaves when it returns from `process`. */
  lemma ProcessorRuns(c: nat, flow: nat, m: ManagerState, h: ResourceId, data: seq<byte>, at: Slots)
    returns (read: View, t: View)
    requires Holds(m, h, data) && 0 < |data| <= MAX_BUFFER_SIZE && Affords(m, c, |data|) && Usable(m, at)
    ensures read == Marshal(Idle(c, flow, m), h, at.input).(mgr := m.RecordCopy(flow, |data|, HostToComponent))
    ensures Marshal(Idle(c, flow, m), h, at.input).ReadAll(at.input).1 == Value(Bytes(data))
    ensures RunGuest(Marshal(Idle(c, flow, m), h, at.input), ProcessorProgram(data, at)) == (t, false)
    ensures Made(read, t, data, at)
  {
    hide View.ReadAll, Made, TierCapacity;
    var v := Marshal(Idle(c, flow, m), h, at.input);
    ReadInput(v, at.input, data);
    read := v.ReadAll(at.input).0;
    var ops := ProcessorProgram(data, at);
    assert ops[1..] == MakeBuffer(data, at);
    hide RunGuest;
    MakeBufferMakes(read, data, at);
    t := RunGuest(read, MakeBuffer(data, at)).0;
    RunGuestHead(v, ops);
  }

  lemma RunGuestHead(v: View, ops: seq<GuestOp>)
    requires ops != [] && !v.Do(ops[0]).1.Trapped?
    ensures RunGuest(v, ops) == RunGuest(v.Do(ops[0]).0, ops[1..])
  {
    hide View.Do;
  }

  lemma DraftedWithout(m: ManagerState, n: ManagerState, x: ManagerState, y: ManagerState, c: nat, h: ResourceId, out: ResourceId, capacity: nat)
    requires Drafted(m, n, c, out, capacity) && h != out
    requires x.entries == m.entries - {h} && x.budgets == m.budgets && y.entries == n.entries - {h} && y.budgets == n.budgets
    ensures Drafted(x, y, c, out, capacity) && y.entries[out] == n.entries[out]
  {
    hide Reserve;
    assert y.entries == x.entries[out := y.entries[out]];
  }

  /** Taking the input away from under the buffer just made leaves it made. */
  lemma MadeWithout(c: nat, flow: nat, m: ManagerState, h: ResourceId, at: Slots, read: View, t: View, u: View, data: seq<byte>)
    requires h in m.entries && Usable(m, at) && Made(read, t, data, at)
    requires read == Marshal(Idle(c, flow, m), h, at.input).(mgr := m.RecordCopy(flow, |data|, HostToComponent))
    requires u.store == t.Delete(at.input).store && u.mgr.entries == t.mgr.entries - {h}
    requires u.mgr.budgets == t.mgr.budgets && u.mgr.ledger == t.mgr.ledger
    ensures Made(Idle(c, flow, read.mgr.(entries := m.entries - {h})), u, data, at)
  {
    hide TierCapacity, Drafted;
    var before := Idle(c, flow, read.mgr.(entries := m.entries - {h}));
    assert at.h != h;
    assert t.store.table - {at.input} == before.store.table[at.out := Wrapper(Immutable, at.h, Component(c))];
    DraftedWithout(read.mgr, t.mgr, before.mgr, u.mgr, c, h, at.h, TierCapacity(|data|));
  }

  /** Reclaiming the input first changes nothing about the buffer just made. */
  lemma ReclaimThenEmit(c: nat, flow: nat, m: ManagerState, h: ResourceId, data: seq<byte>, at: Slots, read: View, t: View)
    returns (n: ManagerState)
    requires Holds(m, h, data) && Affords(m, c, |data|) && Usable(m, at)
    requires read == Marshal(Idle(c, flow, m), h, at.input).(mgr := m.RecordCopy(flow, |data|, HostToComponent))
    requires Made(read, t, data, at)
    ensures Reclaim(t, at.input).1 == Completed(())
    ensures EmitOutput(Reclaim(t, at.input).0, Some(at.out)) == (Idle(c, flow, n), Completed(Some(at.h)))
    ensures Holds(n, at.h, data) && n.entries == (m.entries - {h})[at.h := n.entries[at.h]] && n.budgets == m.budgets
    ensures n.ledger == m.RecordCopy(flow, |data|, HostToComponent).RecordCopy(flow, |data|, ComponentToHost).ledger
  {
    hide Reclaim, EmitOutput, TierCapacity, ManagerState.TransferOwnership;
    assert t.mgr.entries[h] == m.entries[h];
    ReclaimInput(t, at.input, h, data);
    var u := Reclaim(t, at.input).0;
    MadeWithout(c, flow, m, h, at, read, t, u, data);
    var before := Idle(c, flow, read.mgr.(entries := m.entries - {h}));
    hide Made;
    EmitMade(before, u, data, at);
    n := EmitOutput(u, Some(at.out)).0.mgr;
  }

  /** A process call passes the bytes on in a new buffer, returns the old one to the pool, and records one
      copy of the bytes each way. */
  lemma ProcessorCall(c: nat, flow: nat, m: ManagerState, h: ResourceId, data: seq<byte>, at: Slots) returns (n: ManagerState)
    requires Holds(m, h, data) && 0 < |data| <= MAX_BUFFER_SIZE && Affords(m, c, |data|) && Usable(m, at)
    ensures InvokeProcess(Idle(c, flow, m), Transform, h, at.input, ProcessorProgram(data, at), Returned(Some(at.out))) ==
            (Idle(c, flow, n), Completed(Some(at.h)))
    ensures Marshal(Idle(c, flow, m), h, at.input).ReadAll(at.input).1 == Value(Bytes(data))
    ensures Holds(n, at.h, data) && n.entries == (m.entries - {h})[at.h := n.entries[at.h]] && n.budgets == m.budgets
    ensures n.ledger == m.RecordCopy(flow, |data|, HostToComponent).RecordCopy(flow, |data|, ComponentToHost).ledger
  {
    hide RunGuest, Reclaim, EmitOutput, Holds, Made, Affords, Usable, Marshal, ManagerState.RecordCopy;
    var read, t := ProcessorRuns(c, flow, m, h, data, at);
    n := ReclaimThenEmit(c, flow, m, h, data, at, read, t);
  }
}
