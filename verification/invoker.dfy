/** `WasmtimeInvoker`: the guest entry points, carried out on a store in place. */
module Invoker {
  import opened Wrappers
  import opened Slab
  import opened ManagerSpec
  import opened HostSpec
  import opened InvokerSpec
  import HostState
  import Fuel

  /** A call that allocates. The buffer pool has memory as `op.pool` says; how the allocation then went is in
      `performed`. */
  method PerformAllocation(host: HostState.HostState, op: GuestOp) returns (r: Outcome, ghost performed: GuestOp)
    requires host.Valid() && Admits(host.table, op) && (op.Allocate? || op.CloneIntoMutable?)
    modifies host, host.resources, host.resources.table
    ensures host.Valid()
    ensures (host.State(), r) == old(host.State()).Do(performed)
    ensures Answers(old(host.State()), op, performed)
  {
    hide Slab.ResourceTable.Valid, View.Allocate, View.CloneIntoMutable;
    ghost var answer;
    match op
    case Allocate(hint, at, pool) =>
      r, answer := host.Allocate(hint, at, !pool.OutOfMemory?);
      performed := GuestOp.Allocate(hint, at, answer);
    case CloneIntoMutable(rep, at, pool) =>
      r, answer := host.CloneIntoMutable(rep, at, !pool.OutOfMemory?);
      performed := GuestOp.CloneIntoMutable(rep, at, answer);
  }

  /** One call of a guest into the host. */
  method Perform(host: HostState.HostState, op: GuestOp) returns (r: Outcome, ghost performed: GuestOp)
    requires host.Valid() && Admits(host.table, op)
    modifies host, host.resources, host.resources.table
    ensures host.Valid()
    ensures (host.State(), r) == old(host.State()).Do(performed)
    ensures Answers(old(host.State()), op, performed)
  {
    hide Slab.ResourceTable.Valid, View.Read, View.ReadAll, View.Drop, View.Write, View.Append, View.Freeze, View.SizeOf, View.Capacity;
    performed := op;
    match op
    case BufferSize(rep) => r := host.SizeOf(rep, Immutable);
    case Read(rep, offset, len) => r := host.Read(rep, offset, len);
    case ReadAll(rep) => r := host.ReadAll(rep);
    case DropBuffer(rep) => r := host.Drop(rep, Immutable);
    case Write(rep, offset, data) => r := host.Write(rep, offset, data);
    case Append(rep, data) => r := host.Append(rep, data);
    case MutableSize(rep) => r := host.SizeOf(rep, Mutable);
    case Capacity(rep) => r := host.Capacity(rep);
    case Freeze(rep, at) => r := host.Freeze(rep, at);
    case DropMutable(rep) => r := host.Drop(rep, Mutable);
    case _ => r, performed := PerformAllocation(host, op);
  }

  /** The guest runs: its calls into the host one after the other, until one of them traps it or is not let
      through. */
  method CallGuest(host: HostState.HostState, ops: seq<GuestOp>)
    returns (trapped: bool, admitted: bool, ghost performed: seq<GuestOp>)
    requires host.Valid()
    modifies host, host.resources, host.resources.table
    ensures host.Valid()
    ensures Carried(old(host.State()), ops, performed, admitted)
    ensures (host.State(), trapped) == RunGuest(old(host.State()), performed)
    decreases |ops|
  {
    hide Slab.ResourceTable.Valid, View.Do, Answers, Admits;
    performed := [];
    if |ops| == 0 {
      return false, true, performed;
    }
    if !Admits(host.table, ops[0]) {
      return false, false, performed;
    }
    var r;
    ghost var op, rest;
    r, op := Perform(host, ops[0]);
    if r.Trapped? {
      return true, true, [op];
    }
    trapped, admitted, rest := CallGuest(host, ops[1..]);
    performed := [op] + rest;
    assert performed[1..] == rest;
  }

  method ToWitStreamElement(host: HostState.HostState, h: ResourceId, rep: nat)
    modifies host`table
    ensures host.State() == Marshal(old(host.State()), h, rep)
  {
    host.table := host.table[rep := Wrapper(Immutable, h, Host)];
  }

  method ReclaimInputElement(host: HostState.HostState, rep: nat) returns (r: Invoked<()>)
    requires host.Valid()
    modifies host, host.resources, host.resources.table
    ensures host.Valid()
    ensures (host.State(), r) == Reclaim(old(host.State()), rep)
  {
    hide Slab.ResourceTable.Valid, ManagerState.Release;
    var entry := host.Lookup(rep, Immutable);
    if entry.None? {
      return Rejected(Internal);
    }
    host.table := host.table - {rep};
    var released := host.resources.Release(entry.value.handle, entry.value.owner);
    return if released.Err? then Rejected(Internal) else Completed(());
  }

  method ConvertOutputElement(host: HostState.HostState, rep: nat) returns (r: Invoked<ResourceId>)
    requires host.Valid()
    modifies host, host.resources, host.resources.table
    ensures host.Valid()
    ensures (host.State(), r) == ConvertOutput(old(host.State()), rep)
  {
    hide Slab.ResourceTable.Valid, ManagerState.TransferOwnership;
    var entry := host.Lookup(rep, Immutable);
    if entry.None? {
      return Rejected(Internal);
    }
    host.table := host.table - {rep};
    var transferred := host.resources.TransferOwnership(entry.value.handle, entry.value.owner, Host);
    return if transferred.Err? then Rejected(Internal) else Completed(entry.value.handle);
  }

  method HandOver(host: HostState.HostState, out: Option<nat>) returns (r: Invoked<Option<ResourceId>>)
    requires host.Valid()
    modifies host, host.resources, host.resources.table
    ensures host.Valid()
    ensures (host.State(), r) == EmitOutput(old(host.State()), out)
  {
    hide Slab.ResourceTable.Valid, ConvertOutput;
    if out.None? {
      return Completed(None);
    }
    var converted := ConvertOutputElement(host, out.value);
    return if converted.Rejected? then Rejected(converted.error) else Completed(Some(converted.value));
  }

  /** What the caller sees of a guest call: a trapping host function, an operation not let through, fuel, then
      the guest's own end. */
  function Ending<T>(trapped: bool, admitted: bool, ran: Fuel.Ran, end: CallEnd<T>): CallEnd<T> {
    if trapped then HostError else if !admitted then GuestTrap else if ran == Fuel.OutOfFuel then OutOfFuel else end
  }

  /** How the call's own cost leaves the guest. */
  ghost function RanFor(fuel: Fuel.Store, cost: nat): Fuel.Ran {
    if fuel.metered && cost > fuel.fuelBudget then Fuel.OutOfFuel else Fuel.Finished
  }

  /** What the caller is told of a call that a host function trapped, that did what the component model refuses,
      that cost more than the budget, or that ended by itself. A guest's own error is only passed on when the
      input could be reclaimed. */
  ghost predicate Told<T, U>(trapped: bool, admitted: bool, starved: bool, reclaimed: bool, end: CallEnd<T>, r: Invoked<U>) {
    if trapped then r == Rejected(Internal)
    else if !admitted then r == Rejected(Fatal)
    else if starved then r == Rejected(DeadlineExceeded)
    else
      && (end.OutOfFuel? ==> r == Rejected(DeadlineExceeded))
      && (end.GuestTrap? ==> r == Rejected(Fatal))
      && (end.HostError? ==> r == Rejected(Internal))
      && (end.GuestError? ==> r == Rejected(if reclaimed then end.error else Internal))
      && (end.Returned? ==> if reclaimed then r.Completed? || r == Rejected(Internal) else r == Rejected(Internal))
  }

  /** The call's own cost is more than it may use. */
  predicate Starved(fuel: Fuel.Store, cost: nat) {
    fuel.metered && cost > fuel.fuelBudget
  }

  lemma ConvertTells(v: View, rep: nat)
    ensures var r := ConvertOutput(v, rep).1; r.Rejected? ==> r.error == Internal
  {
  }

  lemma PullTells(v: View, ops: seq<GuestOp>, admitted: bool, fuel: Fuel.Store, cost: nat, end: CallEnd<Option<nat>>)
    ensures var (called, trapped) := RunGuest(v, ops);
            var r := InvokerSpec.InvokePull(v, DataSource, ops, Ending(false, admitted, RanFor(fuel, cost), end)).1;
            && Told(trapped, admitted, Starved(fuel, cost), true, end, r)
            && (!trapped && admitted && !Starved(fuel, cost) && end == Returned(None) ==> r == Completed(None))
  {
    hide RunGuest, ConvertOutput;
    if end.Returned? && end.value.Some? {
      ConvertTells(RunGuest(v, ops).0, end.value.value);
    }
  }

  lemma ProcessTells(v: View, bindings: Bindings, h: ResourceId, rep: nat, ops: seq<GuestOp>, admitted: bool, fuel: Fuel.Store, cost: nat,
                     end: CallEnd<Option<nat>>)
    requires bindings.Transform? || bindings.ManagedTransform?
    ensures var (called, trapped) := RunGuest(Marshal(v, h, rep), ops);
            var reclaimed := Reclaim(called, rep).1.Completed?;
            var r := InvokerSpec.InvokeProcess(v, bindings, h, rep, ops, Ending(false, admitted, RanFor(fuel, cost), end)).1;
            && Told(trapped, admitted, Starved(fuel, cost), reclaimed, end, r)
            && (!trapped && admitted && !Starved(fuel, cost) && reclaimed && end == Returned(None) ==> r == Completed(None))
  {
    hide RunGuest, ConvertOutput, Marshal;
    ReclaimTells(RunGuest(Marshal(v, h, rep), ops).0, rep);
    forall t, out { ConvertTells(t, out); }
    hide Reclaim;
  }

  lemma ReclaimTells(v: View, rep: nat)
    ensures var r := Reclaim(v, rep).1; r.Rejected? ==> r.error == Internal
  {
  }

  lemma PushTells(v: View, h: ResourceId, rep: nat, ops: seq<GuestOp>, admitted: bool, fuel: Fuel.Store, cost: nat, end: CallEnd<Signal>)
    ensures var (called, trapped) := RunGuest(Marshal(v, h, rep), ops);
            var reclaimed := Reclaim(called, rep).1.Completed?;
            var r := InvokerSpec.InvokePush(v, DataSink, h, rep, ops, Ending(false, admitted, RanFor(fuel, cost), end)).1;
            && Told(trapped, admitted, Starved(fuel, cost), reclaimed, end, r)
            && (!trapped && admitted && !Starved(fuel, cost) && reclaimed && end.Returned? ==> r == Completed(end.value))
  {
    hide RunGuest, Marshal;
    ReclaimTells(RunGuest(Marshal(v, h, rep), ops).0, rep);
    hide Reclaim;
  }

  /** `fuel` is the store's counter, `cost` what the guest would use, `ops` its calls into the host. */
  method InvokePull(host: HostState.HostState, fuel: Fuel.Store, bindings: Bindings, cost: nat, ops: seq<GuestOp>, end: CallEnd<Option<nat>>)
    returns (r: Invoked<Option<ResourceId>>, ghost performed: seq<GuestOp>, ghost admitted: bool)
    requires host.Valid() && fuel.Valid()
    modifies host, host.resources, host.resources.table, fuel
    ensures host.Valid() && fuel.Valid()
    ensures bindings == DataSource ==> Carried(old(host.State()), ops, performed, admitted)
    ensures (host.State(), r) ==
            InvokerSpec.InvokePull(old(host.State()), bindings, performed, Ending(false, admitted, RanFor(fuel, cost), end))
    ensures bindings != DataSource ==> r == Rejected(Internal)
    ensures bindings == DataSource ==>
              var trapped := RunGuest(old(host.State()), performed).1;
              && Told(trapped, admitted, Starved(fuel, cost), true, end, r)
              && (!trapped && admitted && !Starved(fuel, cost) && end == Returned(None) ==> r == Completed(None))
  {
    hide Slab.ResourceTable.Valid, RunGuest, EmitOutput, Carried, Told;
    performed, admitted := [], true;
    if bindings != DataSource {
      var _ := fuel.Refuel();
      return Rejected(Internal), performed, admitted;
    }
    var ran := fuel.Invoke(cost);
    var trapped, let;
    trapped, let, performed := CallGuest(host, ops);
    admitted := let;
    PullTells(old(host.State()), performed, let, fuel, cost, end);
    var outer := Ending(trapped, let, ran, end);
    if !outer.Returned? {
      return Rejected(CallError(outer)), performed, admitted;
    }
    r := HandOver(host, outer.value);
  }

  method InvokeProcess(host: HostState.HostState, fuel: Fuel.Store, bindings: Bindings, h: ResourceId, rep: nat, cost: nat,
                       ops: seq<GuestOp>, end: CallEnd<Option<nat>>)
    returns (r: Invoked<Option<ResourceId>>, ghost performed: seq<GuestOp>, ghost admitted: bool)
    requires host.Valid() && fuel.Valid()
    modifies host, host.resources, host.resources.table, fuel
    ensures host.Valid() && fuel.Valid()
    ensures bindings.Transform? || bindings.ManagedTransform? ==>
              Carried(Marshal(old(host.State()), h, rep), ops, performed, admitted)
    ensures (host.State(), r) ==
            InvokerSpec.InvokeProcess(old(host.State()), bindings, h, rep, performed, Ending(false, admitted, RanFor(fuel, cost), end))
    ensures !(bindings.Transform? || bindings.ManagedTransform?) ==> r == Rejected(Internal)
    ensures bindings.Transform? || bindings.ManagedTransform? ==>
              var (called, trapped) := RunGuest(Marshal(old(host.State()), h, rep), performed);
              var reclaimed := Reclaim(called, rep).1.Completed?;
              && Told(trapped, admitted, Starved(fuel, cost), reclaimed, end, r)
              && (!trapped && admitted && !Starved(fuel, cost) && reclaimed && end == Returned(None) ==> r == Completed(None))
  {
    hide Slab.ResourceTable.Valid, RunGuest, EmitOutput, Reclaim, Marshal, Carried, Told;
    performed, admitted := [], true;
    if !(bindings.Transform? || bindings.ManagedTransform?) {
      var _ := fuel.Refuel();
      return Rejected(Internal), performed, admitted;
    }
    var ran := fuel.Invoke(cost);
    ToWitStreamElement(host, h, rep);
    var trapped, let;
    trapped, let, performed := CallGuest(host, ops);
    admitted := let;
    ProcessTells(old(host.State()), bindings, h, rep, performed, let, fuel, cost, end);
    var outer := Ending(trapped, let, ran, end);
    var reclaimed := ReclaimInputElement(host, rep);
    if !outer.Returned? && !outer.GuestError? {
      return Rejected(CallError(outer)), performed, admitted;
    }
    if reclaimed.Rejected? {
      return Rejected(reclaimed.error), performed, admitted;
    }
    if outer.GuestError? {
      return Rejected(outer.error), performed, admitted;
    }
    r := HandOver(host, outer.value);
  }

  method InvokePush(host: HostState.HostState, fuel: Fuel.Store, bindings: Bindings, h: ResourceId, rep: nat, cost: nat,
                    ops: seq<GuestOp>, end: CallEnd<Signal>)
    returns (r: Invoked<Signal>, ghost performed: seq<GuestOp>, ghost admitted: bool)
    requires host.Valid() && fuel.Valid()
    modifies host, host.resources, host.resources.table, fuel
    ensures host.Valid() && fuel.Valid()
    ensures bindings == DataSink ==> Carried(Marshal(old(host.State()), h, rep), ops, performed, admitted)
    ensures (host.State(), r) ==
            InvokerSpec.InvokePush(old(host.State()), bindings, h, rep, performed, Ending(false, admitted, RanFor(fuel, cost), end))
    ensures bindings != DataSink ==> r == Rejected(Internal)
    ensures bindings == DataSink ==>
              var (called, trapped) := RunGuest(Marshal(old(host.State()), h, rep), performed);
              var reclaimed := Reclaim(called, rep).1.Completed?;
              && Told(trapped, admitted, Starved(fuel, cost), reclaimed, end, r)
              && (!trapped && admitted && !Starved(fuel, cost) && reclaimed && end.Returned? ==> r == Completed(end.value))
  {
    hide Slab.ResourceTable.Valid, RunGuest, Reclaim, Marshal, Carried, Told;
    performed, admitted := [], true;
    if bindings != DataSink {
      var _ := fuel.Refuel();
      return Rejected(Internal), performed, admitted;
    }
    var ran := fuel.Invoke(cost);
    ToWitStreamElement(host, h, rep);
    var trapped, let;
    trapped, let, performed := CallGuest(host, ops);
    admitted := let;
    PushTells(old(host.State()), h, rep, performed, let, fuel, cost, end);
    var outer := Ending(trapped, let, ran, end);
    var reclaimed := ReclaimInputElement(host, rep);
    if !outer.Returned? && !outer.GuestError? {
      return Rejected(CallError(outer)), performed, admitted;
    }
    if reclaimed.Rejected? {
      return Rejected(reclaimed.error), performed, admitted;
    }
    if outer.GuestError? {
      return Rejected(outer.error), performed, admitted;
    }
    return Completed(outer.value), performed, admitted;
  }
}
