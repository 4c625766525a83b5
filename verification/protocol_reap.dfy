/** The manager's own books over protocol runs, and what is left when a flow is reaped. */
module ProtocolReap {
  import opened Wrappers
  import opened Slab
  import opened ManagerSpec
  import opened HostSpec
  import opened InvokerSpec
  import opened Protocol
  import opened ProtocolRuns
  import ManagerRuns

  // ---------------------------------------------------------------------------
  // Indices, and where buffers come from
  // ---------------------------------------------------------------------------

  /** A buffer of `n` was there in `m`, for the same flow, and kept its owner or passed to the host; or it is
      one of flow `flow` that component `c` owns or passed to the host. */
  ghost predicate Descends(m: ManagerState, n: ManagerState, c: nat, flow: nat) {
    forall h :: h in n.entries ==>
      || (h in m.entries && n.entries[h].flow == m.entries[h].flow
          && (n.entries[h].owner == m.entries[h].owner || n.entries[h].owner == Host))
      || ((n.entries[h].owner == Component(c) || n.entries[h].owner == Host) && n.entries[h].flow == flow)
  }

  ghost predicate Onward(m: ManagerState, n: ManagerState, c: nat, flow: nat) {
    (m.Indexed() ==> n.Indexed()) && Descends(m, n, c, flow)
  }

  lemma OnwardTwice(l: ManagerState, m: ManagerState, n: ManagerState, c: nat, flow: nat)
    requires Onward(l, m, c, flow) && Onward(m, n, c, flow)
    ensures Onward(l, n, c, flow)
  {
    hide ManagerState.Indexed;
  }

  lemma ReleaseOnward(m: ManagerState, h: ResourceId, owner: OwnerId, c: nat, flow: nat)
    ensures Onward(m, m.Release(h, owner).0, c, flow)
  {
    hide ManagerState.Indexed;
    if m.Indexed() { ManagerRuns.ReleaseKeepsIndices(m, h, owner); }
  }

  lemma HandOverOnward(m: ManagerState, h: ResourceId, owner: OwnerId, c: nat, flow: nat)
    ensures Onward(m, m.TransferOwnership(h, owner, Host).0, c, flow)
  {
    hide ManagerState.Indexed;
    if m.Indexed() { ManagerRuns.HandOverKeepsIndices(m, h, owner); }
  }

  lemma AllocateOnward(m: ManagerState, c: nat, capacity: nat, flow: nat, pool: PoolAnswer)
    requires pool.Granted? ==> pool.id !in m.entries
    ensures Onward(m, m.Allocate(Component(c), capacity, flow, pool).0, c, flow)
  {
    hide ManagerState.Indexed;
    if m.Indexed() { ManagerRuns.AllocateKeepsIndices(m, Component(c), capacity, flow, pool); }
  }

  lemma WriteOnward(m: ManagerState, h: ResourceId, owner: OwnerId, offset: nat, data: seq<byte>, charged: nat, c: nat, flow: nat)
    ensures Onward(m, m.WritePayload(h, owner, offset, data, charged).0, c, flow)
  {
    hide ManagerState.Indexed;
    if m.Indexed() { ManagerRuns.WriteKeepsIndices(m, h, owner, offset, data, charged); }
  }

  lemma ReadChangesLedger(v: View, w: Wrapper, offset: nat, len: nat)
    ensures var (t, r) := v.ReadRange(w, offset, len);
            t.store == v.store && t.mgr == v.mgr.(ledger := t.mgr.ledger) && (r.Value? ==> r.answer.Bytes?)
  {
  }

  lemma LedgerOnward(m: ManagerState, n: ManagerState, c: nat, flow: nat)
    requires n == m.(ledger := n.ledger)
    ensures Onward(m, n, c, flow)
  {
    if m.Indexed() {
      assert n.ComponentIndexExact() && n.FlowIndexExact();
    }
  }

  lemma FillOnward(v: View, data: seq<byte>, at: nat, pool: PoolAnswer)
    requires pool.Granted? ==> pool.id !in v.mgr.entries
    ensures var t := v.FillClone(data, at, pool).0;
            Onward(v.mgr, t.mgr, v.store.component, v.store.flow) && t.store.component == v.store.component && t.store.flow == v.store.flow
  {
    hide ManagerState.Allocate, ManagerState.WritePayload, ManagerState.Release, Onward;
    var c, flow, capacity := v.store.component, v.store.flow, if |data| == 0 then 1 else |data|;
    AllocateOnward(v.mgr, c, capacity, flow, pool);
    var (m, r) := v.mgr.Allocate(v.Owner(), capacity, flow, pool);
    if r.Ok? && data != [] {
      var n := m.WritePayload(r.value, v.Owner(), 0, data, flow).0;
      WriteOnward(m, r.value, v.Owner(), 0, data, flow, c, flow);
      OnwardTwice(v.mgr, m, n, c, flow);
      ReleaseOnward(n, r.value, v.Owner(), c, flow);
      OnwardTwice(v.mgr, n, n.Release(r.value, v.Owner()).0, c, flow);
    }
  }

  lemma CloneOnward(v: View, rep: nat, at: nat, pool: PoolAnswer)
    requires pool.Granted? ==> pool.id !in v.mgr.entries
    ensures var t := v.CloneIntoMutable(rep, at, pool).0;
            Onward(v.mgr, t.mgr, v.store.component, v.store.flow) && t.store.component == v.store.component && t.store.flow == v.store.flow
  {
    hide View.ReadRange, View.FillClone, Onward;
    forall x, o, n { ReadChangesLedger(v, x, o, n); }
    var (u, read) := v.ReadAll(rep);
    LedgerOnward(v.mgr, u.mgr, v.store.component, v.store.flow);
    if read.Value? {
      FillOnward(u, read.answer.bytes, at, pool);
      OnwardTwice(v.mgr, u.mgr, u.FillClone(read.answer.bytes, at, pool).0.mgr, v.store.component, v.store.flow);
    }
  }

  lemma GuestOnward(v: View, op: GuestOp)
    requires v.Possible(op)
    ensures var t := v.Do(op).0;
            Onward(v.mgr, t.mgr, v.store.component, v.store.flow) && t.store.component == v.store.component && t.store.flow == v.store.flow
  {
    hide ManagerState.Allocate, ManagerState.WritePayload, ManagerState.Release, Onward, View.ReadRange, View.CloneIntoMutable;
    var c, flow := v.store.component, v.store.flow;
    LedgerOnward(v.mgr, v.mgr, c, flow);
    match op
    case Allocate(hint, at, pool) => AllocateOnward(v.mgr, c, hint, flow, pool);
    case CloneIntoMutable(rep, at, pool) => CloneOnward(v, rep, at, pool);
    case Write(_, _, _) => forall h, owner, o, d { WriteOnward(v.mgr, h, owner, o, d, flow, c, flow); }
    case Append(_, _) => forall h, owner, o, d { WriteOnward(v.mgr, h, owner, o, d, flow, c, flow); }
    case _ =>
      forall x, o, n
        ensures v.ReadRange(x, o, n).0.store == v.store && Onward(v.mgr, v.ReadRange(x, o, n).0.mgr, c, flow)
      {
        ReadChangesLedger(v, x, o, n);
        LedgerOnward(v.mgr, v.ReadRange(x, o, n).0.mgr, c, flow);
      }
      forall h, owner { ReleaseOnward(v.mgr, h, owner, c, flow); }
  }

  lemma EmitOnward(v: View, out: Option<nat>)
    ensures var t := EmitOutput(v, out).0;
            Onward(v.mgr, t.mgr, v.store.component, v.store.flow) && t.store.component == v.store.component && t.store.flow == v.store.flow
  {
    hide ManagerState.TransferOwnership, Onward;
    LedgerOnward(v.mgr, v.mgr, v.store.component, v.store.flow);
    forall h, owner { HandOverOnward(v.mgr, h, owner, v.store.component, v.store.flow); }
  }

  lemma ReclaimOnward(v: View, rep: nat)
    ensures var t := Reclaim(v, rep).0;
            Onward(v.mgr, t.mgr, v.store.component, v.store.flow) && t.store.component == v.store.component && t.store.flow == v.store.flow
  {
    hide ManagerState.Release, Onward;
    LedgerOnward(v.mgr, v.mgr, v.store.component, v.store.flow);
    forall h, owner { ReleaseOnward(v.mgr, h, owner, v.store.component, v.store.flow); }
  }

  /** The stores keep their components and flows. */
  ghost predicate SameStores(w: World, t: World) {
    forall s :: (s in w.stores <==> s in t.stores)
      && (s in w.stores ==> t.stores[s].component == w.stores[s].component && t.stores[s].flow == w.stores[s].flow)
  }

  /** Every live buffer is of some store's flow, and one that a component owns of a store of that component. */
  ghost predicate Rooted(w: World) {
    forall h :: h in w.mgr.entries ==> FromAStore(w, w.mgr.entries[h])
  }

  ghost predicate FromAStore(w: World, e: Entry) {
    exists s :: s in w.stores && OfStore(w.stores[s], e)
  }

  predicate OfStore(store: Store, e: Entry) {
    e.flow == store.flow && (e.owner == Component(store.component) || e.owner == Host)
  }

  /** A step in one store goes onward for that store's component and flow. */
  lemma OnwardIsRooted(w: World, s: nat, t: World)
    requires Rooted(w) && s in w.stores && SameStores(w, t) && Onward(w.mgr, t.mgr, w.stores[s].component, w.stores[s].flow)
    ensures Rooted(t)
  {
    hide ManagerState.Indexed;
    forall h | h in t.mgr.entries
      ensures FromAStore(t, t.mgr.entries[h])
    {
      var e := t.mgr.entries[h];
      if h in w.mgr.entries && e.flow == w.mgr.entries[h].flow && (e.owner == w.mgr.entries[h].owner || e.owner == Host) {
        var z :| z in w.stores && OfStore(w.stores[z], w.mgr.entries[h]);
        assert z in t.stores && OfStore(t.stores[z], e);
      } else {
        assert s in t.stores && OfStore(t.stores[s], e);
      }
    }
  }

  ghost predicate Kept(w: World) {
    w.mgr.Indexed() && Rooted(w)
  }

  lemma AtStore(w: World, s: nat, v: View)
    requires Kept(w) && s in w.stores && Onward(w.mgr, v.mgr, w.stores[s].component, w.stores[s].flow)
    requires v.store.component == w.stores[s].component && v.store.flow == w.stores[s].flow
    ensures Kept(w.With(s, v)) && SameStores(w, w.With(s, v))
  {
    hide ManagerState.Indexed, Descends, Rooted;
    OnwardIsRooted(w, s, w.With(s, v));
  }

  /** Only tables of calls, tickets and discarded elements differ. */
  lemma SameBeneath(w: World, t: World)
    requires Kept(w) && t.mgr == w.mgr && t.stores == w.stores
    ensures Kept(t)
  {
    hide ManagerState.Indexed;
    forall h | h in t.mgr.entries
      ensures FromAStore(t, t.mgr.entries[h])
    {
      assert FromAStore(w, w.mgr.entries[h]);
    }
  }

  lemma EmitKept(w: World, s: nat, out: Option<nat>, ticket: nat)
    requires Kept(w) && s in w.stores
    ensures Kept(Emit(w, s, out, ticket)) && SameStores(w, Emit(w, s, out, ticket))
  {
    hide EmitOutput, Kept, Onward;
    EmitOnward(w.Of(s), out);
    var t := w.With(s, EmitOutput(w.Of(s), out).0);
    AtStore(w, s, EmitOutput(w.Of(s), out).0);
    SameBeneath(t, Emit(w, s, out, ticket));
  }

  lemma StepKept(w: World, step: Step)
    requires Kept(w) && Enabled(w, step)
    ensures Kept(Next(w, step)) && SameStores(w, Next(w, step))
  {
    hide View.Do, EmitOutput, Reclaim, Kept, Onward;
    match step
    case Guest(s, op) =>
      GuestOnward(w.Of(s), op);
      AtStore(w, s, w.Of(s).Do(op).0);
    case Begin(s, t, rep) =>
      var v := Marshal(w.Of(s), w.flight[t], rep);
      LedgerOnward(w.mgr, w.mgr, w.stores[s].component, w.stores[s].flow);
      AtStore(w, s, v);
      SameBeneath(w.With(s, v), Next(w, step));
    case End(s, out, t) =>
      var v := Reclaim(w.Of(s), w.calls[s]).0;
      ReclaimOnward(w.Of(s), w.calls[s]);
      AtStore(w, s, v);
      SameBeneath(w.With(s, v), Reclaimed(w, s));
      EmitKept(Reclaimed(w, s), s, out, t);
    case Pulled(s, out, t) => EmitKept(w, s, out, t);
    case Cancel(s) => SameBeneath(w, Next(w, step));
    case Discard(t) => SameBeneath(w, Next(w, step));
  }

  lemma {:induction false} RunKept(w: World, steps: seq<Step>)
    requires Kept(w) && Feasible(w, steps)
    ensures Kept(Run(w, steps)) && SameStores(w, Run(w, steps))
    decreases |steps|
  {
    hide Kept, Next;
    if steps != [] {
      StepKept(w, steps[0]);
      RunKept(Next(w, steps[0]), steps[1..]);
    }
  }

  // ---------------------------------------------------------------------------
  // Budgets
  // ---------------------------------------------------------------------------

  /** Budgets are exact too, within their limits, and no limit is so large that a charge could wrap. */
  ghost predicate Charged(m: ManagerState) {
    m.Consistent() && forall c :: c in m.budgets ==> m.budgets[c].used <= m.budgets[c].max && m.budgets[c].max + MAX_BUFFER_SIZE < U64_RANGE
  }

  /** The one thing in a run that unsettles budgets: an allocation the pool has no memory for. */
  predicate RunsOutOfMemory(step: Step) {
    step.Guest? && (step.op.Allocate? || step.op.CloneIntoMutable?) && step.op.pool.OutOfMemory?
  }

  lemma CreditStaysCharged(m: ManagerState, n: ManagerState)
    requires Charged(m) && n.Consistent() && n.budgets.Keys == m.budgets.Keys
    requires forall c :: c in m.budgets ==> n.budgets[c].max == m.budgets[c].max && n.budgets[c].used <= m.budgets[c].used
    ensures Charged(n)
  {
    hide ManagerState.Consistent;
  }

  lemma OwnersAreCharged(m: ManagerState, h: ResourceId)
    requires Charged(m) && h in m.entries
    ensures m.entries[h].owner.Component? && m.entries[h].owner.id in m.budgets ==>
              |m.entries[h].memory| <= m.budgets[m.entries[h].owner.id].used
  {
    hide OwnedBytes, ManagerState.Indexed;
    if m.entries[h].owner.Component? && m.entries[h].owner.id in m.budgets {
      OwnedBytesSplit(m.entries, m.entries[h].owner.id, h);
    }
  }

  lemma ReleaseKeepsCharged(m: ManagerState, h: ResourceId, owner: OwnerId)
    requires Charged(m)
    ensures Charged(m.Release(h, owner).0)
  {
    hide ManagerState.Consistent;
    ManagerRuns.ReleaseKeeps(m, h, owner);
    if h in m.entries { OwnersAreCharged(m, h); }
    CreditStaysCharged(m, m.Release(h, owner).0);
  }

  lemma HandOverKeepsCharged(m: ManagerState, h: ResourceId, owner: OwnerId)
    requires Charged(m)
    ensures Charged(m.TransferOwnership(h, owner, Host).0)
  {
    hide ManagerState.Consistent;
    ManagerRuns.TransferKeeps(m, h, owner, Host);
    if h in m.entries { OwnersAreCharged(m, h); }
    CreditStaysCharged(m, m.TransferOwnership(h, owner, Host).0);
  }

  lemma AllocateKeepsCharged(m: ManagerState, c: nat, capacity: nat, flow: nat, pool: PoolAnswer)
    requires Charged(m) && (pool.Granted? ==> pool.id !in m.entries) && !pool.OutOfMemory?
    ensures Charged(m.Allocate(Component(c), capacity, flow, pool).0)
  {
    hide ManagerState.Consistent, TierCapacity;
    ManagerRuns.AllocateKeeps(m, Component(c), capacity, flow, pool);
    if capacity <= MAX_BUFFER_SIZE && c in m.budgets {
      ManagerRuns.TierFits(capacity);
      SmallRemainder(m.budgets[c].used + TierCapacity(capacity));
      CreditUndoesReservation(m.budgets[c].used, TierCapacity(capacity));
    }
  }

  lemma WriteKeepsCharged(m: ManagerState, h: ResourceId, owner: OwnerId, offset: nat, data: seq<byte>, flow: nat)
    requires Charged(m)
    ensures Charged(m.WritePayload(h, owner, offset, data, flow).0)
  {
    hide ManagerState.Consistent;
    ManagerRuns.InPlaceKeeps(m, ManagerRuns.Op.Write(h, owner, offset, data, flow));
    CreditStaysCharged(m, m.WritePayload(h, owner, offset, data, flow).0);
  }

  lemma LedgerKeepsCharged(m: ManagerState, n: ManagerState)
    requires Charged(m) && n == m.(ledger := n.ledger)
    ensures Charged(n)
  {
    assert n.ComponentIndexExact() && n.FlowIndexExact() && n.BudgetsExact();
  }

  lemma FillKeepsCharged(v: View, data: seq<byte>, at: nat, pool: PoolAnswer)
    requires Charged(v.mgr) && !pool.OutOfMemory? && (pool.Granted? ==> pool.id !in v.mgr.entries)
    ensures Charged(v.FillClone(data, at, pool).0.mgr)
  {
    hide ManagerState.Allocate, ManagerState.WritePayload, ManagerState.Release, Charged;
    var capacity := if |data| == 0 then 1 else |data|;
    AllocateKeepsCharged(v.mgr, v.store.component, capacity, v.store.flow, pool);
    var (m, r) := v.mgr.Allocate(v.Owner(), capacity, v.store.flow, pool);
    if r.Ok? && data != [] {
      WriteKeepsCharged(m, r.value, v.Owner(), 0, data, v.store.flow);
      ReleaseKeepsCharged(m.WritePayload(r.value, v.Owner(), 0, data, v.store.flow).0, r.value, v.Owner());
    }
  }

  lemma GuestKeepsCharged(v: View, s: nat, op: GuestOp)
    requires Charged(v.mgr) && v.Possible(op) && !RunsOutOfMemory(Guest(s, op))
    ensures Charged(v.Do(op).0.mgr)
  {
    hide ManagerState.Allocate, ManagerState.WritePayload, ManagerState.Release, Charged, View.ReadRange, View.FillClone;
    forall x, o, n
      ensures v.ReadRange(x, o, n).0.store == v.store && v.ReadRange(x, o, n).0.mgr.entries == v.mgr.entries
      ensures Charged(v.ReadRange(x, o, n).0.mgr) && (v.ReadRange(x, o, n).1.Value? ==> v.ReadRange(x, o, n).1.answer.Bytes?)
    {
      ReadChangesLedger(v, x, o, n);
      LedgerKeepsCharged(v.mgr, v.ReadRange(x, o, n).0.mgr);
    }
    match op
    case Allocate(hint, at, pool) => AllocateKeepsCharged(v.mgr, v.store.component, hint, v.store.flow, pool);
    case CloneIntoMutable(rep, at, pool) =>
      var (u, read) := v.ReadAll(rep);
      if read.Value? { FillKeepsCharged(u, read.answer.bytes, at, pool); }
    case Write(_, _, _) => forall h, owner, o, d { WriteKeepsCharged(v.mgr, h, owner, o, d, v.store.flow); }
    case Append(_, _) => forall h, owner, o, d { WriteKeepsCharged(v.mgr, h, owner, o, d, v.store.flow); }
    case _ => forall h, owner { ReleaseKeepsCharged(v.mgr, h, owner); }
  }

  lemma EmitKeepsCharged(v: View, out: Option<nat>)
    requires Charged(v.mgr)
    ensures Charged(EmitOutput(v, out).0.mgr)
  {
    hide ManagerState.TransferOwnership, Charged;
    forall h, owner { HandOverKeepsCharged(v.mgr, h, owner); }
  }

  lemma ReclaimKeepsCharged(v: View, rep: nat)
    requires Charged(v.mgr)
    ensures Charged(Reclaim(v, rep).0.mgr)
  {
    hide ManagerState.Release, Charged;
    forall h, owner { ReleaseKeepsCharged(v.mgr, h, owner); }
  }

  lemma {:induction false} RunKeepsCharged(w: World, steps: seq<Step>)
    requires Charged(w.mgr) && Feasible(w, steps) && forall i :: 0 <= i < |steps| ==> !RunsOutOfMemory(steps[i])
    ensures Charged(Run(w, steps).mgr)
    decreases |steps|
  {
    hide Charged, Next, RunsOutOfMemory;
    if steps != [] {
      StepKeepsCharged(w, steps[0]);
      RunKeepsCharged(Next(w, steps[0]), steps[1..]);
    }
  }

  lemma StepKeepsCharged(w: World, step: Step)
    requires Charged(w.mgr) && Enabled(w, step) && !RunsOutOfMemory(step)
    ensures Charged(Next(w, step).mgr)
  {
    hide Charged, View.Do, EmitOutput, Reclaim;
    match step
    case Guest(s, op) => GuestKeepsCharged(w.Of(s), s, op);
    case End(s, out, _) =>
      ReclaimKeepsCharged(w.Of(s), w.calls[s]);
      EmitKeepsCharged(Reclaimed(w, s).Of(s), out);
    case Pulled(s, out, _) => EmitKeepsCharged(w.Of(s), out);
    case _ =>
  }

  // ---------------------------------------------------------------------------
  // Reaping
  // ---------------------------------------------------------------------------

  lemma InitialIsKept(w: World)
    requires Initial(w) && w.mgr.Indexed()
    ensures Kept(w)
  {
  }

  /** However the runs of the flows on a manager went — memory failures, traps, cancelled calls and discarded
      elements included — reaping one of them leaves none of its buffers live, none that its stages'
      components own, no budget of theirs, and the copy ledger as it was. Every buffer of the other flows
      survives exactly when no component that bears a reaped stage's id owns one. What budgets remain are
      exact if no allocation failed for want of memory. */
  lemma ReapLeavesNothing(w: World, steps: seq<Step>, flow: nat, stages: seq<nat>)
    requires Initial(w) && w.mgr.Indexed() && Feasible(w, steps)
    ensures var m := Run(w, steps).mgr; var n := ManagerRuns.ReapFlow(m, flow, stages);
            && (forall h :: h in n.entries ==> h in m.entries && n.entries[h] == m.entries[h] && n.entries[h].flow != flow)
            && (forall h, c :: h in n.entries && c in stages ==> n.entries[h].owner != Component(c))
            && n.ledger == m.ledger
            && (forall c :: c in n.budgets <==> c in m.budgets && c !in stages)
            && ((forall h :: h in m.entries && m.entries[h].flow != flow ==> h in n.entries) <==> !ManagerRuns.Entangled(m, flow, stages))
    ensures Charged(w.mgr) && (forall i :: 0 <= i < |steps| ==> !RunsOutOfMemory(steps[i])) ==>
              ManagerRuns.ReapFlow(Run(w, steps).mgr, flow, stages).Consistent()
  {
    hide ManagerState.Indexed, Initial, ManagerRuns.ReapFlow, ManagerRuns.Entangled, ManagerState.BudgetsExact;
    InitialIsKept(w);
    RunKept(w, steps);
    var m := Run(w, steps).mgr;
    ManagerRuns.ReapFlowIsExact(m, flow, stages);
    ManagerRuns.OtherFlowsSurviveExactly(m, flow, stages);
    if Charged(w.mgr) && (forall i :: 0 <= i < |steps| ==> !RunsOutOfMemory(steps[i])) {
      RunKeepsCharged(w, steps);
    }
  }

  lemma ReapedIsRooted(w: World, steps: seq<Step>, h: ResourceId) returns (s: nat)
    requires Initial(w) && w.mgr.Indexed() && Feasible(w, steps) && h in Run(w, steps).mgr.entries
    ensures s in w.stores && OfStore(w.stores[s], Run(w, steps).mgr.entries[h])
  {
    hide ManagerState.Indexed, Initial;
    InitialIsKept(w);
    RunKept(w, steps);
    var t := Run(w, steps);
    assert FromAStore(t, t.mgr.entries[h]);
    s :| s in t.stores && OfStore(t.stores[s], t.mgr.entries[h]);
  }

  /** When every store runs for the one flow, reaping it leaves nothing at all. */
  lemma LastFlowLeavesNothing(w: World, steps: seq<Step>, flow: nat, stages: seq<nat>)
    requires Initial(w) && w.mgr.Indexed() && Feasible(w, steps)
    requires forall s :: s in w.stores ==> w.stores[s].flow == flow
    ensures ManagerRuns.ReapFlow(Run(w, steps).mgr, flow, stages).entries == map[]
  {
    hide ManagerState.Indexed, Initial, ManagerRuns.ReapFlow, ManagerRuns.Entangled, Charged;
    ReapLeavesNothing(w, steps, flow, stages);
    var n := ManagerRuns.ReapFlow(Run(w, steps).mgr, flow, stages);
    forall h | h in Run(w, steps).mgr.entries
      ensures Run(w, steps).mgr.entries[h].flow == flow
    {
      var s := ReapedIsRooted(w, steps, h);
    }
    assert forall h :: h !in n.entries;
  }

  /** When no store of another flow runs a component that bears a reaped stage's id, every buffer of the other
      flows survives. */
  lemma DistinctIdsKeepOtherFlows(w: World, steps: seq<Step>, flow: nat, stages: seq<nat>)
    requires Initial(w) && w.mgr.Indexed() && Feasible(w, steps)
    requires forall s :: s in w.stores && w.stores[s].flow != flow ==> w.stores[s].component !in stages
    ensures var m := Run(w, steps).mgr;
            forall h :: h in m.entries && m.entries[h].flow != flow ==> h in ManagerRuns.ReapFlow(m, flow, stages).entries
  {
    hide ManagerState.Indexed, Initial, ManagerRuns.ReapFlow, Charged;
    var m := Run(w, steps).mgr;
    forall h | h in m.entries && m.entries[h].flow != flow && m.entries[h].owner.Component?
      ensures m.entries[h].owner.id !in stages
    {
      var s := ReapedIsRooted(w, steps, h);
    }
    ReapLeavesNothing(w, steps, flow, stages);
  }

  // ---------------------------------------------------------------------------
  // Two flows that number their components alike
  // ---------------------------------------------------------------------------

  /** Two stores on one manager, both of component 1, for flows 1 and 2. */
  function TwoFlows(): World {
    World(ManagerRuns.EMPTY, map[0 := Store(1, 1, map[]), 1 := Store(1, 2, map[])], map[], {}, map[])
  }

  const BUFFER := ResourceId(0, 1)

  /** The second flow's component has allocated a buffer. */
  function SecondAllocates(): Step {
    Guest(1, GuestOp.Allocate(8, 0, Granted(BUFFER)))
  }

  lemma SecondFlowHasBuffer()
    ensures Initial(TwoFlows()) && TwoFlows().mgr.Indexed() && Enabled(TwoFlows(), SecondAllocates())
    ensures var m := Next(TwoFlows(), SecondAllocates()).mgr;
            BUFFER in m.entries && m.entries[BUFFER].flow == 2 && m.entries[BUFFER].owner == Component(1)
  {
    hide TierCapacity, ZeroBytes;
    ManagerRuns.EmptyIsConsistent();
  }

  /** Reaping the first flow, whose one stage is component 1, takes the live buffer of the second. */
  lemma ReapTakesTheOtherFlowsBuffer()
    ensures var w := TwoFlows();
            && Initial(w) && Feasible(w, [SecondAllocates()])
            && var m := Run(w, [SecondAllocates()]).mgr;
               && BUFFER in m.entries && m.entries[BUFFER].flow == 2
               && BUFFER !in ManagerRuns.ReapFlow(m, 1, [1]).entries
  {
    hide Initial, Enabled, Next, ManagerRuns.ReapFlow, ManagerState.Indexed, Charged, ManagerRuns.Entangled;
    SecondFlowHasBuffer();
    var w, t := TwoFlows(), Next(TwoFlows(), SecondAllocates());
    assert Feasible(t, []);
    assert Run(t, []) == t;
    assert Feasible(w, [SecondAllocates()]) && Run(w, [SecondAllocates()]) == t;
    ReapLeavesNothing(w, [SecondAllocates()], 1, [1]);
    OneStage();
  }

  lemma OneStage()
    ensures 1 in [1]
  {
  }
}
