/** What frozen means over whole runs: nobody changes the payload again, and every reader gets it. */
module ProtocolPayload {
  import opened Wrappers
  import opened Slab
  import opened ManagerSpec
  import opened HostSpec
  import opened InvokerSpec
  import opened Protocol
  import opened ProtocolRuns

  /** Some store still has a mutable wrapper on `h`. */
  ghost predicate Writable(stores: map<nat, Store>, h: ResourceId) {
    exists s, rep :: MutableAt(stores, s, rep, h)
  }

  predicate MutableAt(stores: map<nat, Store>, s: nat, rep: nat, h: ResourceId) {
    s in stores && rep in stores[s].table && stores[s].table[rep].kind == Mutable && stores[s].table[rep].handle == h
  }

  ghost predicate Frozen(w: World, h: ResourceId) {
    h in w.mgr.entries && !Writable(w.stores, h)
  }

  function Payload(m: ManagerState, h: ResourceId): seq<byte>
    requires h in m.entries
  {
    m.entries[h].Payload()
  }

  // ---------------------------------------------------------------------------
  // Guest operations, on one store
  // ---------------------------------------------------------------------------

  /** The operation writes through a mutable wrapper on `h`. */
  predicate WritesTo(v: View, op: GuestOp, h: ResourceId) {
    (op.Write? || op.Append?) && v.Lookup(op.rep, Mutable).Some? && v.Lookup(op.rep, Mutable).value.handle == h
  }

  ghost predicate KeepsPayloads(m: ManagerState, n: ManagerState) {
    forall h :: h in m.entries && h in n.entries ==> Payload(n, h) == Payload(m, h)
  }

  lemma ReadKeepsPayloads(v: View, w: Wrapper, offset: nat, len: nat)
    ensures v.ReadRange(w, offset, len).0.mgr.entries == v.mgr.entries
    ensures v.ReadRange(w, offset, len).0.store == v.store
    ensures v.ReadRange(w, offset, len).1.Value? ==> v.ReadRange(w, offset, len).1.answer.Bytes?
  {
  }

  lemma WriteTouchesOne(v: View, w: Wrapper, offset: nat, data: seq<byte>)
    ensures var t := v.WriteAt(w, offset, data).0;
            && t.store == v.store
            && forall h :: h in v.mgr.entries && h != w.handle ==> h in t.mgr.entries && t.mgr.entries[h] == v.mgr.entries[h]
  {
  }

  lemma ReleaseKeepsPayloads(m: ManagerState, h: ResourceId, owner: OwnerId)
    ensures KeepsPayloads(m, m.Release(h, owner).0)
  {
  }

  lemma AllocateKeepsPayloads(m: ManagerState, owner: OwnerId, capacity: nat, flow: nat, pool: PoolAnswer)
    requires pool.Granted? ==> pool.id !in m.entries
    ensures KeepsPayloads(m, m.Allocate(owner, capacity, flow, pool).0)
    ensures var (n, r) := m.Allocate(owner, capacity, flow, pool);
            && (r.Ok? ==> pool == Granted(r.value))
            && (forall h :: h in m.entries ==> h in n.entries)
  {
  }

  lemma FillKeepsPayloads(v: View, data: seq<byte>, at: nat, pool: PoolAnswer)
    requires pool.Granted? ==> pool.id !in v.mgr.entries
    ensures KeepsPayloads(v.mgr, v.FillClone(data, at, pool).0.mgr)
  {
    hide ManagerState.Allocate, ManagerState.WritePayload, ManagerState.Release;
    var capacity := if |data| == 0 then 1 else |data|;
    AllocateKeepsPayloads(v.mgr, v.Owner(), capacity, v.store.flow, pool);
    var (m, r) := v.mgr.Allocate(v.Owner(), capacity, v.store.flow, pool);
    if r.Ok? && data != [] {
      WriteTouchesOne(v.(mgr := m), Wrapper(Mutable, r.value, v.Owner()), 0, data);
      var n := m.WritePayload(r.value, v.Owner(), 0, data, v.store.flow).0;
      ReleaseKeepsPayloads(n, r.value, v.Owner());
    }
  }

  lemma TableOpKeepsPayloads(v: View, op: GuestOp)
    requires v.Possible(op) && (op.DropBuffer? || op.DropMutable? || op.Freeze? || op.Allocate?)
    ensures KeepsPayloads(v.mgr, v.Do(op).0.mgr)
  {
    hide ManagerState.Allocate, ManagerState.Release;
    if op.Allocate? {
      AllocateKeepsPayloads(v.mgr, v.Owner(), op.hint, v.store.flow, op.pool);
    }
    forall x, owner { ReleaseKeepsPayloads(v.mgr, x, owner); }
  }

  lemma WriteOpTouchesOne(v: View, op: GuestOp, h: ResourceId)
    requires (op.Write? || op.Append?) && !WritesTo(v, op, h) && h in v.mgr.entries && h in v.Do(op).0.mgr.entries
    ensures Payload(v.Do(op).0.mgr, h) == Payload(v.mgr, h)
  {
    hide View.WriteAt;
    forall x, o, d { WriteTouchesOne(v, x, o, d); }
  }

  /** Only a write through a mutable wrapper changes what a buffer holds. */
  lemma OnlyWritesChangePayloads(v: View, op: GuestOp, h: ResourceId)
    requires v.Possible(op) && !WritesTo(v, op, h)
    requires h in v.mgr.entries && h in v.Do(op).0.mgr.entries
    ensures Payload(v.Do(op).0.mgr, h) == Payload(v.mgr, h)
  {
    if op.Write? || op.Append? {
      hide View.Do;
      WriteOpTouchesOne(v, op, h);
    } else if op.DropBuffer? || op.DropMutable? || op.Freeze? || op.Allocate? {
      hide View.Do;
      TableOpKeepsPayloads(v, op);
    } else {
      hide View.ReadRange, View.FillClone;
      forall x, o, n { ReadKeepsPayloads(v, x, o, n); }
      if op.CloneIntoMutable? {
        var (u, read) := v.ReadAll(op.rep);
        if read.Value? { FillKeepsPayloads(u, read.answer.bytes, op.at, op.pool); }
      }
    }
  }

  /** Every mutable wrapper either was there before, as it is, or is on a buffer that was not. */
  ghost predicate NoNewWriters(v: View, t: View) {
    forall rep :: rep in t.store.table && t.store.table[rep].kind == Mutable && t.store.table[rep].handle in v.mgr.entries ==>
      rep in v.store.table && v.store.table[rep] == t.store.table[rep]
  }

  lemma FillAddsNoWriter(v: View, data: seq<byte>, at: nat, pool: PoolAnswer)
    requires pool.Granted? ==> pool.id !in v.mgr.entries
    ensures NoNewWriters(v, v.FillClone(data, at, pool).0)
  {
    hide ManagerState.Allocate, ManagerState.WritePayload, ManagerState.Release;
    AllocateKeepsPayloads(v.mgr, v.Owner(), if |data| == 0 then 1 else |data|, v.store.flow, pool);
  }

  lemma TableOpAddsNoWriter(v: View, op: GuestOp)
    requires v.Possible(op) && FROZEN_SENTINEL !in v.mgr.entries && (op.DropBuffer? || op.DropMutable? || op.Freeze? || op.Allocate?)
    ensures NoNewWriters(v, v.Do(op).0)
  {
    hide ManagerState.Allocate, ManagerState.Release, View.ReadRange, View.WriteAt, View.FillClone;
    if op.Allocate? {
      AllocateKeepsPayloads(v.mgr, v.Owner(), op.hint, v.store.flow, op.pool);
    }
  }

  lemma SameStoreAddsNoWriter(v: View, t: View)
    requires t.store == v.store
    ensures NoNewWriters(v, t)
  {
  }

  lemma GuestAddsNoWriter(v: View, op: GuestOp)
    requires v.Possible(op) && FROZEN_SENTINEL !in v.mgr.entries
    ensures NoNewWriters(v, v.Do(op).0)
  {
    hide NoNewWriters;
    if Quiet(op) {
      QuietOps(v, op);
      hide View.Do;
      SameStoreAddsNoWriter(v, v.Do(op).0);
    } else if op.CloneIntoMutable? {
      hide View.ReadRange, View.FillClone;
      forall x, o, n { ReadKeepsPayloads(v, x, o, n); }
      var (u, read) := v.ReadAll(op.rep);
      SameStoreAddsNoWriter(v, u);
      if read.Value? {
        FillAddsNoWriter(u, read.answer.bytes, op.at, op.pool);
        SameViewpoint(v, u, u.FillClone(read.answer.bytes, op.at, op.pool).0);
      }
    } else {
      hide View.Do;
      TableOpAddsNoWriter(v, op);
    }
  }

  lemma SameViewpoint(v: View, u: View, t: View)
    requires u.store == v.store && u.mgr.entries == v.mgr.entries && NoNewWriters(u, t)
    ensures NoNewWriters(v, t)
  {
  }

  // ---------------------------------------------------------------------------
  // Every step, and runs
  // ---------------------------------------------------------------------------

  lemma StillFrozen(w: World, s: nat, v: View, h: ResourceId)
    requires s in w.stores && Frozen(w, h) && NoNewWriters(w.Of(s), v)
    ensures !Writable(w.With(s, v).stores, h)
  {
    var t := w.With(s, v);
    forall z, rep
      ensures !MutableAt(t.stores, z, rep, h)
    {
      assert !MutableAt(w.stores, z, rep, h);
    }
  }

  /** Taking over an output, or reclaiming an input, deletes at most one wrapper and changes no payload. */
  lemma EmitKeepsPayloads(v: View, out: Option<nat>)
    ensures var t := EmitOutput(v, out).0; KeepsPayloads(v.mgr, t.mgr) && NoNewWriters(v, t)
  {
  }

  lemma ReclaimKeepsPayloads(v: View, rep: nat)
    ensures var t := Reclaim(v, rep).0; KeepsPayloads(v.mgr, t.mgr) && NoNewWriters(v, t)
  {
    hide ManagerState.Release;
    forall h, owner { ReleaseKeepsPayloads(v.mgr, h, owner); }
  }

  ghost predicate FrozenAs(w: World, h: ResourceId, payload: seq<byte>) {
    Frozen(w, h) && Payload(w.mgr, h) == payload
  }

  lemma GuestKeepsFrozen(w: World, s: nat, op: GuestOp, h: ResourceId, payload: seq<byte>)
    requires Enabled(w, Guest(s, op)) && FROZEN_SENTINEL !in w.mgr.entries && FrozenAs(w, h, payload)
    requires h in Next(w, Guest(s, op)).mgr.entries
    ensures FrozenAs(Next(w, Guest(s, op)), h, payload)
  {
    hide View.Do;
    var v := w.Of(s);
    if op.Write? || op.Append? {
      assert !MutableAt(w.stores, s, op.rep, h);
    }
    OnlyWritesChangePayloads(v, op, h);
    GuestAddsNoWriter(v, op);
    StillFrozen(w, s, v.Do(op).0, h);
  }

  lemma EmitKeepsFrozen(w: World, s: nat, out: Option<nat>, ticket: nat, h: ResourceId, payload: seq<byte>)
    requires s in w.stores && FrozenAs(w, h, payload) && h in Emit(w, s, out, ticket).mgr.entries
    ensures FrozenAs(Emit(w, s, out, ticket), h, payload)
  {
    hide EmitOutput;
    EmitKeepsPayloads(w.Of(s), out);
    StillFrozen(w, s, EmitOutput(w.Of(s), out).0, h);
  }

  lemma ReclaimKeepsFrozen(w: World, s: nat, h: ResourceId, payload: seq<byte>)
    requires s in w.calls && s in w.stores && FrozenAs(w, h, payload) && h in Reclaimed(w, s).mgr.entries
    ensures FrozenAs(Reclaimed(w, s), h, payload)
  {
    hide Reclaim;
    ReclaimKeepsPayloads(w.Of(s), w.calls[s]);
    StillFrozen(w, s, Reclaim(w.Of(s), w.calls[s]).0, h);
  }

  lemma BeginKeepsFrozen(w: World, s: nat, ticket: nat, rep: nat, h: ResourceId, payload: seq<byte>)
    requires Enabled(w, Begin(s, ticket, rep)) && FrozenAs(w, h, payload)
    ensures FrozenAs(Next(w, Begin(s, ticket, rep)), h, payload)
  {
    StillFrozen(w, s, Marshal(w.Of(s), w.flight[ticket], rep), h);
  }

  /** A frozen buffer that survives a step is still frozen and holds what it held. */
  lemma StepKeepsFrozen(w: World, step: Step, h: ResourceId, payload: seq<byte>)
    requires Sound(w) && Enabled(w, step) && FrozenAs(w, h, payload) && h in Next(w, step).mgr.entries
    ensures FrozenAs(Next(w, step), h, payload)
  {
    hide Names, Named, Writable, EmitOutput, Reclaim, View.Do;
    match step
    case Guest(s, op) => GuestKeepsFrozen(w, s, op, h, payload);
    case Begin(s, t, rep) => BeginKeepsFrozen(w, s, t, rep, h, payload);
    case End(s, out, t) =>
      EmitKeepsLive(Reclaimed(w, s).Of(s), out);
      ReclaimKeepsFrozen(w, s, h, payload);
      EmitKeepsFrozen(Reclaimed(w, s), s, out, t, h, payload);
    case Pulled(s, out, t) => EmitKeepsFrozen(w, s, out, t, h, payload);
    case Cancel(s) => assert Next(w, step).stores == w.stores;
    case Discard(t) => assert Next(w, step).stores == w.stores;
  }

  /** `h` is live before every step of the run and after the last. */
  ghost predicate LiveThroughout(w: World, steps: seq<Step>, h: ResourceId)
    requires Feasible(w, steps)
    decreases |steps|
  {
    h in w.mgr.entries && (steps != [] ==> LiveThroughout(Next(w, steps[0]), steps[1..], h))
  }

  lemma {:induction false} RunKeepsFrozen(w: World, steps: seq<Step>, h: ResourceId, payload: seq<byte>)
    requires Sound(w) && Feasible(w, steps) && LiveThroughout(w, steps, h) && FrozenAs(w, h, payload)
    ensures Sound(Run(w, steps)) && FrozenAs(Run(w, steps), h, payload)
    decreases |steps|
  {
    hide Named, Names, Frozen, Next;
    RunKeepsSound(w, steps);
    if steps != [] {
      RunKeepsSound(w, steps[..1]);
      assert Run(Next(w, steps[0]), []) == Next(w, steps[0]);
      assert steps[..1] == [steps[0]];
      StepKeepsFrozen(w, steps[0], h, payload);
      RunKeepsFrozen(Next(w, steps[0]), steps[1..], h, payload);
    }
  }

  /** The part of `p` a read of `len` bytes at `offset` gets. */
  function Slice(p: seq<byte>, offset: nat, len: nat): seq<byte> {
    var from := Min(offset, |p|);
    p[from..from + Min(len, |p| - from)]
  }

  lemma PartOfPrefix(memory: seq<byte>, k: nat, from: nat, n: nat)
    requires from + n <= k <= |memory|
    ensures memory[..k][from..from + n] == memory[from..from + n]
  {
  }

  lemma SliceIsClamped(p: seq<byte>, offset: nat, len: nat)
    ensures var (from, n) := ClampReadRange(offset, len, |p|); from + n <= |p| && Slice(p, offset, len) == p[from..from + n]
  {
  }

  lemma ReadIsSlice(v: View, rep: nat, offset: nat, len: nat)
    requires v.Lookup(rep, Immutable).Some? && v.Lookup(rep, Immutable).value.handle in v.mgr.entries
    ensures var p := Payload(v.mgr, v.Lookup(rep, Immutable).value.handle);
            v.ReadAll(rep).1 == Value(Bytes(p)) && v.Read(rep, offset, len).1 == Value(Bytes(Slice(p, offset, len)))
  {
    hide Slice, ClampReadRange;
    var e := v.mgr.entries[v.Lookup(rep, Immutable).value.handle];
    var (from, n) := ClampReadRange(offset, len, e.payloadLen);
    SliceIsClamped(e.Payload(), offset, len);
    PartOfPrefix(e.memory, e.payloadLen, from, n);
    PartOfPrefix(e.memory, e.payloadLen, 0, e.payloadLen);
    assert e.memory[..e.payloadLen][0..e.payloadLen] == e.Payload();
  }

  /** A wrapper on a live buffer, whichever store it is in, reads exactly what the buffer holds: all of it,
      or as much of the requested range as there is. Reading traps nobody. */
  lemma ReadsReturnPayload(w: World, s: nat, rep: nat, offset: nat, len: nat)
    requires Sound(w) && s in w.stores
    requires w.Of(s).Lookup(rep, Immutable).Some? && Speaks(w.Of(s).Lookup(rep, Immutable).value)
    ensures var h := w.Of(s).Lookup(rep, Immutable).value.handle;
            && h in w.mgr.entries
            && w.Of(s).ReadAll(rep).1 == Value(Bytes(Payload(w.mgr, h)))
            && w.Of(s).Read(rep, offset, len).1 == Value(Bytes(Slice(Payload(w.mgr, h), offset, len)))
  {
    hide Names, Named, Owners;
    var home :| Inv(w, home);
    ClaimHolds(w, home, s, rep);
    ReadIsSlice(w.Of(s), rep, offset, len);
  }

  /** Freezing a mutable wrapper leaves a handle that is the only name of the buffer, and nobody can write. */
  lemma FreezeFreezes(w: World, s: nat, rep: nat, at: nat)
    requires Sound(w) && Enabled(w, Guest(s, Freeze(rep, at)))
    requires w.Of(s).Lookup(rep, Mutable).Some? && Speaks(w.Of(s).Lookup(rep, Mutable).value)
    ensures var h := w.Of(s).Lookup(rep, Mutable).value.handle;
            && h in w.mgr.entries
            && FrozenAs(Next(w, Guest(s, Freeze(rep, at))), h, Payload(w.mgr, h))
  {
    hide Owners, Named, Names;
    var home :| Inv(w, home);
    ClaimHolds(w, home, s, rep);
    var t := Next(w, Guest(s, Freeze(rep, at)));
    var h := w.Of(s).Lookup(rep, Mutable).value.handle;
    forall z, r
      ensures !MutableAt(t.stores, z, r, h)
    {
      if MutableAt(w.stores, z, r, h) {
        ClaimHolds(w, home, z, r);
        assert home[h] == InStore(s, rep);
      }
    }
  }

  /** Whoever reads a buffer, however much later and from whatever store, gets the bytes it held when it was
      frozen. */
  lemma ReadersSeeWhatWasFrozen(w: World, s: nat, rep: nat, at: nat, steps: seq<Step>, reader: nat, input: nat)
    requires Sound(w) && Enabled(w, Guest(s, Freeze(rep, at)))
    requires w.Of(s).Lookup(rep, Mutable).Some? && Speaks(w.Of(s).Lookup(rep, Mutable).value)
    requires var h := w.Of(s).Lookup(rep, Mutable).value.handle;
             var t := Next(w, Guest(s, Freeze(rep, at)));
             && Feasible(t, steps) && LiveThroughout(t, steps, h)
             && var u := Run(t, steps);
                && reader in u.stores
                && u.Of(reader).Lookup(input, Immutable).Some?
                && u.Of(reader).Lookup(input, Immutable).value.handle == h
    ensures var h := w.Of(s).Lookup(rep, Mutable).value.handle;
            && h in w.mgr.entries
            && Run(Next(w, Guest(s, Freeze(rep, at))), steps).Of(reader).ReadAll(input).1 == Value(Bytes(Payload(w.mgr, h)))
  {
    hide Named, Names, View.ReadAll, View.Freeze, Writable;
    var h := w.Of(s).Lookup(rep, Mutable).value.handle;
    var t := Next(w, Guest(s, Freeze(rep, at)));
    FreezeFreezes(w, s, rep, at);
    RunKeepsSound(w, [Guest(s, Freeze(rep, at))]);
    assert Run(t, []) == t;
    RunKeepsFrozen(t, steps, h, Payload(w.mgr, h));
    ReadsReturnPayload(Run(t, steps), reader, input, 0, 0);
  }

  lemma FilledCloneHolds(v: View, data: seq<byte>, at: nat, pool: PoolAnswer)
    requires pool.Granted? ==> pool.id !in v.mgr.entries
    ensures var (t, r) := v.FillClone(data, at, pool);
            r.Value? ==> pool.Granted? && pool.id in t.mgr.entries && Payload(t.mgr, pool.id) == data
  {
  }

  /** A clone is a new buffer with the source's payload; the source keeps its own. */
  lemma CloneCopies(w: World, s: nat, rep: nat, at: nat, pool: PoolAnswer)
    requires Sound(w) && Enabled(w, Guest(s, CloneIntoMutable(rep, at, pool)))
    requires w.Of(s).CloneIntoMutable(rep, at, pool).1.Value?
    ensures w.Of(s).Lookup(rep, Immutable).Some? && pool.Granted?
    ensures var h, m := w.Of(s).Lookup(rep, Immutable).value.handle, w.Of(s).CloneIntoMutable(rep, at, pool).0.mgr;
            && h in w.mgr.entries && pool.id != h
            && h in m.entries && Payload(m, h) == Payload(w.mgr, h)
            && pool.id in m.entries && Payload(m, pool.id) == Payload(w.mgr, h)
  {
    hide View.ReadRange, View.FillClone, Inv;
    var v := w.Of(s);
    forall x, o, n { ReadKeepsPayloads(v, x, o, n); }
    var (u, read) := v.ReadAll(rep);
    assert read.Value?;
    var h := v.Lookup(rep, Immutable).value.handle;
    ReadIsSlice(v, rep, 0, 0);
    FilledCloneHolds(u, read.answer.bytes, at, pool);
    FillKeepsPayloads(u, read.answer.bytes, at, pool);
    FillKeepsEntries(u, read.answer.bytes, at, pool);
  }

  lemma FillKeepsEntries(v: View, data: seq<byte>, at: nat, pool: PoolAnswer)
    requires pool.Granted? ==> pool.id !in v.mgr.entries
    ensures forall h :: h in v.mgr.entries ==> h in v.FillClone(data, at, pool).0.mgr.entries
  {
  }

  // ---------------------------------------------------------------------------
  // What a guest gets from the operations on a mutable buffer
  // ---------------------------------------------------------------------------

  /** `p` with the bytes from `offset` on replaced by `data`, longer if need be. */
  function Replaced(p: seq<byte>, offset: nat, data: seq<byte>): seq<byte>
    requires offset <= |p|
  {
    p[..offset] + data + if offset + |data| <= |p| then p[offset + |data|..] else []
  }

  lemma OverwritePrefix(e: Entry, offset: nat, data: seq<byte>)
    requires offset <= e.payloadLen && offset + |data| <= |e.memory|
    ensures var end := offset + |data|;
            Overwrite(e.memory, offset, data)[..if end > e.payloadLen then end else e.payloadLen] == Replaced(e.Payload(), offset, data)
  {
    var m := Overwrite(e.memory, offset, data);
    assert m == e.memory[..offset] + data + e.memory[offset + |data|..];
  }

  /** A write that goes through puts the data at its offset, wherever that is. Before it the payload is as it was,
      and what lies between the old payload and the offset is the memory that was there; behind it the payload is
      as it was. Nothing else about any buffer changes. */
  lemma WriteReplaces(v: View, w: Wrapper, offset: nat, data: seq<byte>)
    requires w.handle in v.mgr.entries && v.WriteAt(w, offset, data).1 == Value(Done)
    ensures var t, e := v.WriteAt(w, offset, data).0, v.mgr.entries[w.handle];
            && t.mgr.entries == v.mgr.entries[w.handle := t.mgr.entries[w.handle]]
            && |t.mgr.entries[w.handle].memory| == |e.memory|
            && var p, q := e.Payload(), Payload(t.mgr, w.handle);
               && |q| == (if offset + |data| > |p| then offset + |data| else |p|)
               && q[offset..offset + |data|] == data
               && (forall i :: 0 <= i < offset ==> q[i] == if i < |p| then p[i] else e.memory[i])
               && (forall i :: offset + |data| <= i < |p| ==> q[i] == p[i])
               && (offset <= |p| ==> q == Replaced(p, offset, data))
  {
    var e := v.mgr.entries[w.handle];
    var m := Overwrite(e.memory, offset, data);
    hide Replaced;
    if offset <= e.payloadLen {
      OverwritePrefix(e, offset, data);
    }
    assert m == e.memory[..offset] + data + e.memory[offset + |data|..];
    assert m[offset..offset + |data|] == data;
  }

  /** Appending puts the bytes behind what is there, and fails exactly when they do not fit the capacity. */
  lemma AppendExtends(w: World, s: nat, rep: nat, data: seq<byte>)
    requires Sound(w) && s in w.stores
    requires w.Of(s).Lookup(rep, Mutable).Some? && Speaks(w.Of(s).Lookup(rep, Mutable).value)
    ensures var h, (t, r) := w.Of(s).Lookup(rep, Mutable).value.handle, w.Of(s).Append(rep, data);
            && h in w.mgr.entries
            && (r == Value(Done) <==> |Payload(w.mgr, h)| + |data| <= |w.mgr.entries[h].memory|)
            && (r == Value(Done) ==> h in t.mgr.entries && Payload(t.mgr, h) == Payload(w.mgr, h) + data)
            && (r != Value(Done) ==> r == Failed(BufferError.CapacityExceeded) && t.mgr.entries == w.mgr.entries)
  {
    hide Names, Named, Owners, Overwrite;
    var home :| Inv(w, home);
    ClaimHolds(w, home, s, rep);
    var x := w.Of(s).Lookup(rep, Mutable).value;
    var p := Payload(w.mgr, x.handle);
    if |p| + |data| <= |w.mgr.entries[x.handle].memory| {
      WriteReplaces(w.Of(s), x, |p|, data);
      assert Replaced(p, |p|, data) == p + data;
    }
  }

  /** An allocation that succeeds gives an empty buffer of at least the capacity asked for, owned by the
      component and charged to its flow. */
  lemma AllocateGives(v: View, hint: nat, at: nat, pool: PoolAnswer)
    requires v.Possible(GuestOp.Allocate(hint, at, pool)) && v.Allocate(hint, at, pool).1.Value?
    ensures var t := v.Allocate(hint, at, pool).0;
            && hint <= MAX_BUFFER_CAPACITY && pool.Granted? && t.store.table == v.store.table[at := Wrapper(Mutable, pool.id, v.Owner())]
            && pool.id in t.mgr.entries && t.mgr.entries[pool.id].owner == v.Owner() && t.mgr.entries[pool.id].flow == v.store.flow
            && Payload(t.mgr, pool.id) == [] && |t.mgr.entries[pool.id].memory| >= hint
  {
  }
}
