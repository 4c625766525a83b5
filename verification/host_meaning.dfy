/** What every host function answers its guest, and what it leaves, in any state the protocol reaches. */
module HostMeaning {
  import opened Wrappers
  import opened Slab
  import opened ManagerSpec
  import opened ManagerMeaning
  import opened HostSpec
  import opened InvokerSpec
  import opened Protocol
  import opened ProtocolRuns
  import opened ProtocolPayload

  /** The slot holds that wrapper, on a live buffer of its owner that nobody borrows. */
  ghost predicate Grips(v: View, rep: nat, kind: Kind, x: Wrapper) {
    && rep in v.store.table && v.store.table[rep] == x && x.kind == kind && x.handle != FROZEN_SENTINEL
    && x.handle in v.mgr.entries && v.mgr.entries[x.handle].owner == x.owner
    && v.mgr.entries[x.handle].state == Owned && v.mgr.entries[x.handle].borrowCount == 0
  }

  /** In every reachable state each wrapper that a freeze has not spent is of that kind, so the answers below are
      those of all such states. */
  lemma SpeakingGrips(w: World, s: nat, rep: nat)
    requires Sound(w) && s in w.stores && rep in w.stores[s].table && Speaks(w.stores[s].table[rep])
    ensures Grips(w.Of(s), rep, w.stores[s].table[rep].kind, w.stores[s].table[rep])
  {
    hide Names, Named, Owners;
    var home :| Inv(w, home);
    ClaimHolds(w, home, s, rep);
  }

  /** Without a wrapper of the right kind in the slot a host function traps, and nothing is different. */
  lemma NothingThere(v: View, rep: nat, at: nat, offset: nat, len: nat, data: seq<byte>, pool: PoolAnswer)
    ensures v.Lookup(rep, Immutable).None? <==> !(rep in v.store.table && v.store.table[rep].kind == Immutable)
    ensures v.Lookup(rep, Mutable).None? <==> !(rep in v.store.table && v.store.table[rep].kind == Mutable)
    ensures var dead := (v, Trapped(NoSuchResource));
            && (v.Lookup(rep, Immutable).None? ==>
                  && v.Do(BufferSize(rep)) == dead && v.Do(Read(rep, offset, len)) == dead && v.Do(ReadAll(rep)) == dead
                  && v.Do(DropBuffer(rep)) == dead && v.Do(CloneIntoMutable(rep, at, pool)) == dead)
            && (v.Lookup(rep, Mutable).None? ==>
                  && v.Do(Write(rep, offset, data)) == dead && v.Do(Append(rep, data)) == dead && v.Do(MutableSize(rep)) == dead
                  && v.Do(Capacity(rep)) == dead && v.Do(Freeze(rep, at)) == dead && v.Do(DropMutable(rep)) == dead)
  {
  }

  // ---------------------------------------------------------------------------
  // Looking
  // ---------------------------------------------------------------------------

  lemma SizeAnswers(v: View, rep: nat, x: Wrapper)
    ensures Grips(v, rep, Immutable, x) ==> v.Do(BufferSize(rep)) == (v, Value(Size(|Payload(v.mgr, x.handle)|)))
    ensures Grips(v, rep, Mutable, x) ==> v.Do(MutableSize(rep)) == (v, Value(Size(|Payload(v.mgr, x.handle)|)))
    ensures Grips(v, rep, Mutable, x) ==> v.Do(Capacity(rep)) == (v, Value(Size(|v.mgr.entries[x.handle].memory|)))
  {
  }

  /** The bytes are those of the payload the range covers; only the ledger is different, by one copy if there were
      any bytes. */
  ghost predicate Reads(v: View, t: View, r: Outcome, bytes: seq<byte>) {
    && r == Value(Bytes(bytes))
    && t == v.(mgr := v.mgr.(ledger := t.mgr.ledger))
    && if bytes == [] then t == v else Logged(v.mgr.ledger, t.mgr.ledger, v.store.flow, |bytes|, true)
  }

  lemma RangeAnswers(v: View, x: Wrapper, from: nat, n: nat)
    requires x.handle in v.mgr.entries && from + n <= |Payload(v.mgr, x.handle)|
    ensures var (t, r) := v.ReadRange(x, from, n); Reads(v, t, r, Payload(v.mgr, x.handle)[from..from + n])
  {
    hide ManagerState.ReadPayload, Logged;
    ManagerMeaning.ReadAnswers(v.mgr, x.handle, from, n, v.store.flow);
    var bytes := Payload(v.mgr, x.handle)[from..from + n];
    assert |bytes| == n;
    if n == 0 {
      assert bytes == [];
      assert v.mgr.(ledger := v.mgr.ledger) == v.mgr;
    }
  }

  /** The first byte read is the one at the offset, and as many follow as were asked for or as there are. */
  lemma ReadAnswers(v: View, rep: nat, offset: nat, len: nat, x: Wrapper)
    requires Grips(v, rep, Immutable, x)
    ensures var (t, r), p := v.Do(Read(rep, offset, len)), Payload(v.mgr, x.handle);
            Reads(v, t, r, if offset >= |p| then [] else if offset + len > |p| then p[offset..] else p[offset..offset + len])
    ensures var (t, r) := v.Do(ReadAll(rep)); Reads(v, t, r, Payload(v.mgr, x.handle))
  {
    hide View.ReadRange, Reads;
    var p := Payload(v.mgr, x.handle);
    RangeAnswers(v, x, 0, |p|);
    assert p[0..0 + |p|] == p;
    if offset >= |p| {
      RangeAnswers(v, x, 0, 0);
    } else {
      var n := if offset + len > |p| then |p| - offset else len;
      RangeAnswers(v, x, offset, n);
      assert p[offset..offset + (|p| - offset)] == p[offset..];
    }
  }

  // ---------------------------------------------------------------------------
  // Writing
  // ---------------------------------------------------------------------------

  /** A write of `data` at `offset` that fits: the bytes are there, and one copy is in the ledger. */
  ghost predicate Writes(v: View, t: View, x: Wrapper, offset: nat, data: seq<byte>)
    requires x.handle in v.mgr.entries
  {
    && x.handle in t.mgr.entries && Written(v.mgr.entries[x.handle], t.mgr.entries[x.handle], offset, data)
    && t == v.(mgr := v.mgr.(entries := v.mgr.entries[x.handle := t.mgr.entries[x.handle]], ledger := t.mgr.ledger))
    && Logged(v.mgr.ledger, t.mgr.ledger, v.store.flow, |data|, false)
  }

  lemma WriteAtAnswers(v: View, rep: nat, offset: nat, data: seq<byte>, x: Wrapper)
    requires Grips(v, rep, Mutable, x)
    ensures var (t, r) := v.WriteAt(x, offset, data);
            if offset + |data| > |v.mgr.entries[x.handle].memory| then r == Failed(BufferError.CapacityExceeded) && t == v
            else r == Value(Done) && Writes(v, t, x, offset, data)
  {
    hide ManagerState.WritePayload;
    WriteGoes(v.mgr, x.handle, x.owner, offset, data, v.store.flow);
  }

  /** The manager's side of a write by the owner of a buffer nobody borrows. */
  lemma WriteGoes(m: ManagerState, h: ResourceId, owner: OwnerId, offset: nat, data: seq<byte>, flow: nat)
    requires h in m.entries && m.entries[h].owner == owner && m.entries[h].state == Owned
    ensures var (n, r) := m.WritePayload(h, owner, offset, data, flow);
            if offset + |data| > |m.entries[h].memory| then r == Err(ResourceError.CapacityExceeded) && n == m
            else
              && r == Ok(()) && h in n.entries && Written(m.entries[h], n.entries[h], offset, data)
              && n == m.(entries := m.entries[h := n.entries[h]], ledger := n.ledger)
              && Logged(m.ledger, n.ledger, flow, |data|, false)
  {
    if offset + |data| <= |m.entries[h].memory| {
      OverwriteWrites(m.entries[h].memory, offset, data);
    }
  }

  /** Offsets past 32 bits are out of bounds, data that ends past the capacity is too much, and everything else is
      written. */
  lemma WriteAnswers(v: View, rep: nat, offset: nat, data: seq<byte>, x: Wrapper)
    requires Grips(v, rep, Mutable, x)
    ensures var (t, r) := v.Do(Write(rep, offset, data));
            if offset > 0xFFFF_FFFF then r == Failed(BufferError.OutOfBounds) && t == v
            else if offset + |data| > |v.mgr.entries[x.handle].memory| then r == Failed(BufferError.CapacityExceeded) && t == v
            else r == Value(Done) && Writes(v, t, x, offset, data)
    ensures var (t, r), end := v.Do(Append(rep, data)), |Payload(v.mgr, x.handle)|;
            if end + |data| > |v.mgr.entries[x.handle].memory| then r == Failed(BufferError.CapacityExceeded) && t == v
            else r == Value(Done) && Writes(v, t, x, end, data)
  {
    hide View.WriteAt, Writes;
    WriteAtAnswers(v, rep, offset, data, x);
    WriteAtAnswers(v, rep, |Payload(v.mgr, x.handle)|, data, x);
  }

  // ---------------------------------------------------------------------------
  // Handles
  // ---------------------------------------------------------------------------

  /** A freeze spends the mutable wrapper and puts an immutable one on the same buffer, for the same owner, into
      the new slot; the manager is not asked. */
  lemma FreezeAnswers(v: View, rep: nat, at: nat, x: Wrapper)
    requires Grips(v, rep, Mutable, x) && at !in v.store.table
    ensures var (t, r) := v.Do(Freeze(rep, at));
            && r == Value(Handle(at)) && t.mgr == v.mgr
            && t.store == v.store.(table := v.store.table[rep := Wrapper(Mutable, FROZEN_SENTINEL, x.owner)][at := Wrapper(Immutable, x.handle, x.owner)])
  {
  }

  /** Dropping a wrapper takes it out of its slot and frees its buffer; what a freeze has spent frees nothing. */
  lemma DropAnswers(v: View, rep: nat, kind: Kind, x: Wrapper)
    requires rep in v.store.table && v.store.table[rep] == x && x.kind == kind
    ensures var (t, r) := v.Do(if kind == Immutable then DropBuffer(rep) else DropMutable(rep));
            && (x.handle == FROZEN_SENTINEL ==> r == Value(Done) && t.mgr == v.mgr)
            && (Grips(v, rep, kind, x) ==>
                  && r == Value(Done) && t.mgr.entries == v.mgr.entries - {x.handle} && t.mgr.ledger == v.mgr.ledger
                  && Charged(t.mgr.budgets, v.mgr.budgets, x.owner, |v.mgr.entries[x.handle].memory|))
            && t.store == v.store.(table := v.store.table - {rep})
  {
    hide ManagerState.Release, Charged;
    if Grips(v, rep, kind, x) {
      ReleaseGoes(v.mgr, x.handle, x.owner);
    }
  }

  lemma ReleaseGoes(m: ManagerState, h: ResourceId, owner: OwnerId)
    requires h in m.entries && m.entries[h].owner == owner && m.entries[h].state == Owned && m.entries[h].borrowCount == 0
    ensures var (n, r) := m.Release(h, owner);
            && r == Ok(()) && n.entries == m.entries - {h} && n.ledger == m.ledger
            && Charged(n.budgets, m.budgets, owner, |m.entries[h].memory|)
  {
    hide Unreserve;
    if owner.Component? {
      UnreserveCredits(m.budgets, owner.id, |m.entries[h].memory|);
    }
  }

  // ---------------------------------------------------------------------------
  // New buffers
  // ---------------------------------------------------------------------------

  /** A hint past sixteen mebibytes, or one whose buffer the component cannot afford, is too much; an allocation
      fails otherwise only for want of memory or of a slot; and the buffer is of the least size for the hint, blank
      and the component's. */
  lemma AllocateAnswers(v: View, hint: nat, at: nat, pool: PoolAnswer, capacity: nat)
    requires LeastSize(hint, capacity)
    ensures var (t, r) := v.Do(GuestOp.Allocate(hint, at, pool));
            && t.mgr.ledger == v.mgr.ledger
            && (hint > 16 * 1024 * 1024 || OverLimit(v.mgr, Component(v.store.component), capacity) ==>
                  r == Failed(BufferError.CapacityExceeded) && t == v)
            && (hint <= 16 * 1024 * 1024 && !OverLimit(v.mgr, Component(v.store.component), capacity) ==>
                  match pool
                  case Granted(h) =>
                    && r == Value(Handle(at)) && t.store == v.store.(table := v.store.table[at := Wrapper(Mutable, h, Component(v.store.component))])
                    && h in t.mgr.entries && t.mgr.entries == v.mgr.entries[h := t.mgr.entries[h]]
                    && Blank(t.mgr.entries[h], Component(v.store.component), v.store.flow) && |t.mgr.entries[h].memory| == capacity
                    && Charged(v.mgr.budgets, t.mgr.budgets, Component(v.store.component), capacity)
                  case _ => r == Failed(BufferError.AllocationFailed) && t.store == v.store && t.mgr.entries == v.mgr.entries)
  {
    hide ManagerState.Allocate, OverLimit, LeastSize, Blank, Charged;
    ManagerMeaning.AllocateAnswers(v.mgr, Component(v.store.component), hint, v.store.flow, pool, capacity);
  }

  /** A clone that the component can afford and that there is memory for is a new buffer of the least size for the
      payload, with the payload in it and zeros behind it. The source is as it was. */
  lemma CloneAnswers(v: View, rep: nat, at: nat, pool: PoolAnswer, x: Wrapper, capacity: nat)
    requires Grips(v, rep, Immutable, x) && v.Possible(CloneIntoMutable(rep, at, pool))
    requires var p := Payload(v.mgr, x.handle); |p| <= 16 * 1024 * 1024 && LeastSize(if p == [] then 1 else |p|, capacity)
    ensures var (t, r), p, owner := v.Do(CloneIntoMutable(rep, at, pool)), Payload(v.mgr, x.handle), Component(v.store.component);
            && (OverLimit(v.mgr, owner, capacity) ==> r == Failed(BufferError.CapacityExceeded))
            && (!OverLimit(v.mgr, owner, capacity) && !pool.Granted? ==> r == Failed(BufferError.AllocationFailed))
            && (r.Failed? ==> t.store == v.store && t.mgr.entries == v.mgr.entries)
            && (!OverLimit(v.mgr, owner, capacity) && pool.Granted? ==>
                  && r == Value(Handle(at)) && t.store == v.store.(table := v.store.table[at := Wrapper(Mutable, pool.id, owner)])
                  && pool.id in t.mgr.entries && t.mgr.entries == v.mgr.entries[pool.id := t.mgr.entries[pool.id]]
                  && var e := t.mgr.entries[pool.id];
                     && e.state == Owned && e.owner == owner && e.borrowCount == 0 && e.flow == v.store.flow
                     && e.Payload() == p && |e.memory| == capacity && (forall i :: |p| <= i < capacity ==> e.memory[i] == 0)
                     && Charged(v.mgr.budgets, t.mgr.budgets, owner, capacity))
    ensures var (t, r), p, flow := v.Do(CloneIntoMutable(rep, at, pool)), Payload(v.mgr, x.handle), v.store.flow;
            && (p == [] ==> t.mgr.ledger == v.mgr.ledger)
            && (p != [] && r.Failed? ==> Logged(v.mgr.ledger, t.mgr.ledger, flow, |p|, true))
            && (p != [] && r.Value? ==>
                  exists read :: Logged(v.mgr.ledger, read, flow, |p|, true) && Logged(read, t.mgr.ledger, flow, |p|, false))
  {
    hide View.ReadRange, View.FillClone, OverLimit, LeastSize, Reads, Charged, Logged;
    var p := Payload(v.mgr, x.handle);
    ReadAnswers(v, rep, 0, 0, x);
    var (u, read) := v.ReadAll(rep);
    ReadsBytes(v, u, read, p);
    FillAnswers(u, p, at, pool, capacity);
    SameLimit(v.mgr, u.mgr, Component(v.store.component), capacity);
  }

  lemma ReadsBytes(v: View, t: View, r: Outcome, bytes: seq<byte>)
    requires Reads(v, t, r, bytes)
    ensures r == Value(Bytes(bytes)) && t.store == v.store && t.mgr.entries == v.mgr.entries && t.mgr.budgets == v.mgr.budgets
    ensures if bytes == [] then t.mgr.ledger == v.mgr.ledger else Logged(v.mgr.ledger, t.mgr.ledger, v.store.flow, |bytes|, true)
  {
  }

  lemma SameLimit(m: ManagerState, n: ManagerState, owner: OwnerId, capacity: nat)
    requires n.budgets == m.budgets
    ensures OverLimit(n, owner, capacity) <==> OverLimit(m, owner, capacity)
  {
  }

  lemma FillAnswers(v: View, p: seq<byte>, at: nat, pool: PoolAnswer, capacity: nat)
    requires (pool.Granted? ==> pool.id !in v.mgr.entries) && |p| <= 16 * 1024 * 1024 && LeastSize(if p == [] then 1 else |p|, capacity)
    ensures var (t, r), owner := v.FillClone(p, at, pool), Component(v.store.component);
            && (OverLimit(v.mgr, owner, capacity) ==> r == Failed(BufferError.CapacityExceeded))
            && (!OverLimit(v.mgr, owner, capacity) && !pool.Granted? ==> r == Failed(BufferError.AllocationFailed))
            && (r.Failed? ==> t.store == v.store && t.mgr.entries == v.mgr.entries)
            && (!OverLimit(v.mgr, owner, capacity) && pool.Granted? ==>
                  && r == Value(Handle(at)) && t.store == v.store.(table := v.store.table[at := Wrapper(Mutable, pool.id, owner)])
                  && pool.id in t.mgr.entries && t.mgr.entries == v.mgr.entries[pool.id := t.mgr.entries[pool.id]]
                  && var e := t.mgr.entries[pool.id];
                     && e.state == Owned && e.owner == owner && e.borrowCount == 0 && e.flow == v.store.flow
                     && e.Payload() == p && |e.memory| == capacity && (forall i :: |p| <= i < capacity ==> e.memory[i] == 0)
                     && Charged(v.mgr.budgets, t.mgr.budgets, owner, capacity))
            && (r.Failed? || p == [] ==> t.mgr.ledger == v.mgr.ledger)
            && (r.Value? && p != [] ==> Logged(v.mgr.ledger, t.mgr.ledger, v.store.flow, |p|, false))
  {
    hide ManagerState.Allocate, ManagerState.WritePayload, ManagerState.Release, OverLimit, Charged, Logged;
    var owner, flow := Component(v.store.component), v.store.flow;
    var asked := if p == [] then 1 else |p|;
    assert capacity >= asked;
    hide LeastSize;
    ManagerMeaning.AllocateAnswers(v.mgr, owner, asked, flow, pool, capacity);
    var (m, r) := v.mgr.Allocate(owner, asked, flow, pool);
    if r.Ok? && p != [] {
      WriteGoes(m, r.value, owner, 0, p, flow);
      var n := m.WritePayload(r.value, owner, 0, p, flow).0;
      assert n.entries[r.value].Payload() == p;
    }
  }

  // ---------------------------------------------------------------------------
  // What lies behind a payload
  // ---------------------------------------------------------------------------

  /** Every byte behind a payload is zero. */
  ghost predicate ZeroBehind(m: ManagerState) {
    forall h :: h in m.entries ==> ZeroTail(m.entries[h])
  }

  ghost predicate ZeroTail(e: Entry) {
    forall i :: e.payloadLen <= i < |e.memory| ==> e.memory[i] == 0
  }

  lemma WriteKeepsZeros(m: ManagerState, h: ResourceId, owner: OwnerId, offset: nat, data: seq<byte>, flow: nat)
    requires ZeroBehind(m)
    ensures ZeroBehind(m.WritePayload(h, owner, offset, data, flow).0)
  {
    if h in m.entries && offset + |data| <= |m.entries[h].memory| {
      OverwriteWrites(m.entries[h].memory, offset, data);
    }
  }

  lemma AllocateKeepsZeros(m: ManagerState, owner: OwnerId, requested: nat, flow: nat, pool: PoolAnswer)
    requires ZeroBehind(m)
    ensures ZeroBehind(m.Allocate(owner, requested, flow, pool).0)
  {
    hide TierCapacity, Reserve, Unreserve;
  }

  lemma ReleaseKeepsZeros(m: ManagerState, h: ResourceId, owner: OwnerId)
    requires ZeroBehind(m)
    ensures ZeroBehind(m.Release(h, owner).0)
  {
    hide Unreserve, ZeroTail;
  }

  lemma TransferKeepsZeros(m: ManagerState, h: ResourceId, from: OwnerId, to: OwnerId)
    requires ZeroBehind(m)
    ensures ZeroBehind(m.TransferOwnership(h, from, to).0)
  {
    hide Reserve, Unreserve;
  }

  lemma GuestKeepsZeros(v: View, op: GuestOp)
    requires ZeroBehind(v.mgr)
    ensures ZeroBehind(v.Do(op).0.mgr)
  {
    hide ZeroBehind, ManagerState.Allocate, ManagerState.WritePayload, ManagerState.Release;
    match op
    case Allocate(hint, _, pool) => AllocateKeepsZeros(v.mgr, v.Owner(), hint, v.store.flow, pool);
    case Write(_, offset, data) => forall h, owner { WriteKeepsZeros(v.mgr, h, owner, offset, data, v.store.flow); }
    case Append(_, data) => forall h, owner, offset { WriteKeepsZeros(v.mgr, h, owner, offset, data, v.store.flow); }
    case CloneIntoMutable(rep, at, pool) =>
      var (u, read) := v.ReadAll(rep);
      SameZeros(v.mgr, u.mgr);
      if read.Value? && read.answer.Bytes? { FillKeepsZeros(u, read.answer.bytes, at, pool); }
    case Read(rep, offset, len) => SameZeros(v.mgr, v.Do(op).0.mgr);
    case ReadAll(rep) => SameZeros(v.mgr, v.Do(op).0.mgr);
    case _ => forall h, owner { ReleaseKeepsZeros(v.mgr, h, owner); }
  }

  lemma SameZeros(m: ManagerState, n: ManagerState)
    requires n.entries == m.entries && ZeroBehind(m)
    ensures ZeroBehind(n)
  {
  }

  lemma FillKeepsZeros(v: View, data: seq<byte>, at: nat, pool: PoolAnswer)
    requires ZeroBehind(v.mgr)
    ensures ZeroBehind(v.FillClone(data, at, pool).0.mgr)
  {
    hide ZeroBehind, ManagerState.Allocate, ManagerState.WritePayload, ManagerState.Release;
    var asked := if |data| == 0 then 1 else |data|;
    AllocateKeepsZeros(v.mgr, v.Owner(), asked, v.store.flow, pool);
    var (m, r) := v.mgr.Allocate(v.Owner(), asked, v.store.flow, pool);
    if r.Ok? {
      WriteKeepsZeros(m, r.value, v.Owner(), 0, data, v.store.flow);
      ReleaseKeepsZeros(m.WritePayload(r.value, v.Owner(), 0, data, v.store.flow).0, r.value, v.Owner());
    }
  }

  lemma EmitKeepsZeros(v: View, out: Option<nat>)
    requires ZeroBehind(v.mgr)
    ensures ZeroBehind(EmitOutput(v, out).0.mgr)
  {
    hide ZeroBehind, ManagerState.TransferOwnership;
    forall h, from { TransferKeepsZeros(v.mgr, h, from, Host); }
  }

  lemma ReclaimKeepsZeros(v: View, rep: nat)
    requires ZeroBehind(v.mgr)
    ensures ZeroBehind(Reclaim(v, rep).0.mgr)
  {
    hide ZeroBehind, ManagerState.Release;
    forall h, owner { ReleaseKeepsZeros(v.mgr, h, owner); }
  }

  lemma StepKeepsZeros(w: World, step: Step)
    requires ZeroBehind(w.mgr) && Enabled(w, step)
    ensures ZeroBehind(Next(w, step).mgr)
  {
    hide ZeroBehind, View.Do, EmitOutput, Reclaim;
    match step
    case Guest(s, op) => GuestKeepsZeros(w.Of(s), op);
    case End(s, out, _) =>
      ReclaimKeepsZeros(w.Of(s), w.calls[s]);
      EmitKeepsZeros(Reclaimed(w, s).Of(s), out);
    case Pulled(s, out, _) => EmitKeepsZeros(w.Of(s), out);
    case _ =>
  }

  lemma {:induction false} RunKeepsZeros(w: World, steps: seq<Step>)
    requires ZeroBehind(w.mgr) && Feasible(w, steps)
    ensures ZeroBehind(Run(w, steps).mgr)
    decreases |steps|
  {
    hide ZeroBehind, Next;
    if steps != [] {
      StepKeepsZeros(w, steps[0]);
      RunKeepsZeros(Next(w, steps[0]), steps[1..]);
    }
  }

  /** After any run from an empty start, a write past the end of a payload leaves zeros in between: no guest ever
      sees what a buffer held for another. */
  lemma GapsReadAsZeros(w: World, steps: seq<Step>, s: nat, rep: nat, offset: nat, data: seq<byte>)
    requires Initial(w) && Feasible(w, steps)
    requires var t := Run(w, steps); s in t.stores && rep in t.stores[s].table && t.stores[s].table[rep].kind == Mutable
    requires Run(w, steps).Of(s).Do(Write(rep, offset, data)).1 == Value(Done)
    ensures var t, h := Run(w, steps), Run(w, steps).stores[s].table[rep].handle;
            var u := t.Of(s).Do(Write(rep, offset, data)).0;
            && h in t.mgr.entries && h in u.mgr.entries
            && var p, q := Payload(t.mgr, h), Payload(u.mgr, h);
               && |q| == (if offset + |data| > |p| then offset + |data| else |p|)
               && (forall i :: 0 <= i < |q| ==>
                     q[i] == if offset <= i < offset + |data| then data[i - offset] else if i < |p| then p[i] else 0)
  {
    InitialIsSound(w);
    assert ZeroBehind(w.mgr);
    RunKeepsZeros(w, steps);
    RunKeepsSound(w, steps);
    hide Run, Feasible, Initial, Sound;
    var t := Run(w, steps);
    var x := t.stores[s].table[rep];
    WritersSpeak(t, s, rep, offset, data);
    SpeakingGrips(t, s, rep);
    WriteAnswers(t.Of(s), rep, offset, data, x);
  }

  lemma WritersSpeak(w: World, s: nat, rep: nat, offset: nat, data: seq<byte>)
    requires Sound(w) && s in w.stores && rep in w.stores[s].table && w.stores[s].table[rep].kind == Mutable
    requires w.Of(s).Do(Write(rep, offset, data)).1 == Value(Done)
    ensures Speaks(w.stores[s].table[rep])
  {
    hide Named, Names, Owners;
    var home :| Inv(w, home);
    assert FROZEN_SENTINEL !in w.mgr.entries;
  }
}
