/** What a guest sees of the host: the per-store handle table of `torvyn-engine/src/host_state.rs` over
    the shared manager, and the effect of every host function a guest may call.
 */
module HostSpec {
  import opened Wrappers
  import opened Slab
  import opened ManagerSpec

  /** Written into a mutable wrapper by `freeze`. */
  const FROZEN_SENTINEL: ResourceId := ResourceId(U32_MAX, U32_MAX)

  const MAX_BUFFER_CAPACITY: nat := 16 * 1024 * 1024

  datatype Kind = Immutable | Mutable

  /** A `HostBuffer` or a `HostMutableBuffer`: a manager handle and the owner last known. */
  datatype Wrapper = Wrapper(kind: Kind, handle: ResourceId, owner: OwnerId)

  /** One store: its component, the flow it is charged to, and its resource table by `rep`. */
  datatype Store = Store(component: nat, flow: nat, table: map<nat, Wrapper>)

  datatype BufferError = CapacityExceeded | OutOfBounds | AllocationFailed

  datatype TrapCause = NoSuchResource | Refused(error: ResourceError)

  datatype Answer = Done | Size(size: nat) | Bytes(bytes: seq<byte>) | Handle(rep: nat)

  /** A host function returns to the guest normally, with a WIT-level error, or by trapping it. */
  datatype Outcome = Value(answer: Answer) | Failed(error: BufferError) | Trapped(cause: TrapCause)

  function BufferErrorFrom(e: ResourceError): BufferError {
    match e
    case CapacityExceeded | BudgetExceeded => BufferError.CapacityExceeded
    case OutOfBounds => BufferError.OutOfBounds
    case _ => BufferError.AllocationFailed
  }

  /** Reads past the end shrink to what is there. */
  function ClampReadRange(offset: nat, len: nat, total: nat): (nat, nat) {
    if offset >= total then (0, 0) else (offset, Min(len, total - offset))
  }

  /** The host functions a guest can call. `at` is the slot the table hands out where one is needed, and
      `pool` the answer of the buffer pool. */
  datatype GuestOp =
    | BufferSize(rep: nat)
    | Read(rep: nat, offset: nat, len: nat)
    | ReadAll(rep: nat)
    | DropBuffer(rep: nat)
    | Write(rep: nat, offset: nat, data: seq<byte>)
    | Append(rep: nat, data: seq<byte>)
    | MutableSize(rep: nat)
    | Capacity(rep: nat)
    | Freeze(rep: nat, at: nat)
    | DropMutable(rep: nat)
    | Allocate(hint: nat, at: nat, pool: PoolAnswer)
    | CloneIntoMutable(rep: nat, at: nat, pool: PoolAnswer)

  datatype View = View(store: Store, mgr: ManagerState)
  {
    function Owner(): OwnerId {
      Component(store.component)
    }

    function Lookup(rep: nat, kind: Kind): Option<Wrapper> {
      if rep in store.table && store.table[rep].kind == kind then Some(store.table[rep]) else None
    }

    function Trap(e: ResourceError): (View, Outcome) {
      (this, Trapped(Refused(e)))
    }

    function Push(at: nat, w: Wrapper): View {
      this.(store := store.(table := store.table[at := w]))
    }

    function Delete(rep: nat): View {
      this.(store := store.(table := store.table - {rep}))
    }

    function SizeOf(rep: nat, kind: Kind): (View, Outcome) {
      match Lookup(rep, kind)
      case None => (this, Trapped(NoSuchResource))
      case Some(w) =>
        match mgr.PayloadLen(w.handle)
        case Err(e) => Trap(e)
        case Ok(n) => (this, Value(Size(n)))
    }

    function ReadRange(w: Wrapper, offset: nat, len: nat): (View, Outcome) {
      if len == 0 then (this, Value(Bytes([])))
      else
        match mgr.ReadPayload(w.handle, offset, len, store.flow)
        case (m, Err(e)) => (this.(mgr := m), Trapped(Refused(e)))
        case (m, Ok(bytes)) => (this.(mgr := m), Value(Bytes(bytes)))
    }

    function Read(rep: nat, offset: nat, len: nat): (View, Outcome) {
      match Lookup(rep, Immutable)
      case None => (this, Trapped(NoSuchResource))
      case Some(w) =>
        match mgr.PayloadLen(w.handle)
        case Err(e) => Trap(e)
        case Ok(total) =>
          var (from, n) := ClampReadRange(offset, len, total);
          ReadRange(w, from, n)
    }

    function ReadAll(rep: nat): (View, Outcome) {
      match Lookup(rep, Immutable)
      case None => (this, Trapped(NoSuchResource))
      case Some(w) =>
        match mgr.PayloadLen(w.handle)
        case Err(e) => Trap(e)
        case Ok(total) => ReadRange(w, 0, total)
    }

    /** Dropping either kind of handle: a frozen mutable wrapper no longer stands for a buffer. */
    function Drop(rep: nat, kind: Kind): (View, Outcome) {
      match Lookup(rep, kind)
      case None => (this, Trapped(NoSuchResource))
      case Some(w) =>
        if w.handle == FROZEN_SENTINEL then (Delete(rep), Value(Done))
        else
          match mgr.Release(w.handle, w.owner)
          case (m, Err(e)) => (Delete(rep).(mgr := m), Trapped(Refused(e)))
          case (m, Ok(_)) => (Delete(rep).(mgr := m), Value(Done))
    }

    function WriteAt(w: Wrapper, offset: nat, data: seq<byte>): (View, Outcome) {
      match mgr.WritePayload(w.handle, w.owner, offset, data, store.flow)
      case (m, Err(e)) => (this.(mgr := m), Failed(BufferErrorFrom(e)))
      case (m, Ok(_)) => (this.(mgr := m), Value(Done))
    }

    /** Offsets beyond `u32` are refused before the manager is asked. */
    function Write(rep: nat, offset: nat, data: seq<byte>): (View, Outcome) {
      match Lookup(rep, Mutable)
      case None => (this, Trapped(NoSuchResource))
      case Some(w) => if offset > U32_MAX then (this, Failed(BufferError.OutOfBounds)) else WriteAt(w, offset, data)
    }

    function Append(rep: nat, data: seq<byte>): (View, Outcome) {
      match Lookup(rep, Mutable)
      case None => (this, Trapped(NoSuchResource))
      case Some(w) =>
        match mgr.PayloadLen(w.handle)
        case Err(e) => Trap(e)
        case Ok(len) => WriteAt(w, len, data)
    }

    function Capacity(rep: nat): (View, Outcome) {
      match Lookup(rep, Mutable)
      case None => (this, Trapped(NoSuchResource))
      case Some(w) =>
        if w.handle in mgr.entries then (this, Value(Size(|mgr.entries[w.handle].memory|))) else Trap(InvalidHandle)
    }

    function Freeze(rep: nat, at: nat): (View, Outcome) {
      match Lookup(rep, Mutable)
      case None => (this, Trapped(NoSuchResource))
      case Some(w) => (Push(rep, w.(handle := FROZEN_SENTINEL)).Push(at, w.(kind := Immutable)), Value(Handle(at)))
    }

    function Allocate(hint: nat, at: nat, pool: PoolAnswer): (View, Outcome) {
      if hint > MAX_BUFFER_CAPACITY then (this, Failed(BufferError.CapacityExceeded))
      else
        match mgr.Allocate(Owner(), hint, store.flow, pool)
        case (m, Err(e)) => (this.(mgr := m), Failed(BufferErrorFrom(e)))
        case (m, Ok(h)) => (this.(mgr := m).Push(at, Wrapper(Mutable, h, Owner())), Value(Handle(at)))
    }

    /** The second half of a clone: the bytes read go into a buffer allocated for them, which is given back
        should the write be refused. */
    function FillClone(data: seq<byte>, at: nat, pool: PoolAnswer): (View, Outcome) {
      match mgr.Allocate(Owner(), if |data| == 0 then 1 else |data|, store.flow, pool)
      case (m, Err(e)) => (this.(mgr := m), Failed(BufferErrorFrom(e)))
      case (m, Ok(h)) =>
        var clone := Wrapper(Mutable, h, Owner());
        if data == [] then (this.(mgr := m).Push(at, clone), Value(Handle(at)))
        else
          match m.WritePayload(h, Owner(), 0, data, store.flow)
          case (n, Err(e)) => (this.(mgr := n.Release(h, Owner()).0), Failed(BufferErrorFrom(e)))
          case (n, Ok(_)) => (this.(mgr := n).Push(at, clone), Value(Handle(at)))
    }

    function CloneIntoMutable(rep: nat, at: nat, pool: PoolAnswer): (View, Outcome) {
      match ReadAll(rep)
      case (v, Value(Bytes(data))) => v.FillClone(data, at, pool)
      case (v, trapped) => (v, trapped)
    }

    function Do(op: GuestOp): (View, Outcome) {
      match op
      case BufferSize(rep) => SizeOf(rep, Immutable)
      case Read(rep, offset, len) => Read(rep, offset, len)
      case ReadAll(rep) => ReadAll(rep)
      case DropBuffer(rep) => Drop(rep, Immutable)
      case Write(rep, offset, data) => Write(rep, offset, data)
      case Append(rep, data) => Append(rep, data)
      case MutableSize(rep) => SizeOf(rep, Mutable)
      case Capacity(rep) => Capacity(rep)
      case Freeze(rep, at) => Freeze(rep, at)
      case DropMutable(rep) => Drop(rep, Mutable)
      case Allocate(hint, at, pool) => Allocate(hint, at, pool)
      case CloneIntoMutable(rep, at, pool) => CloneIntoMutable(rep, at, pool)
    }

    /** The table hands out a slot that is not in use, the slab an id that is not live, never the sentinel. */
    predicate Possible(op: GuestOp) {
      && (op.Freeze? || op.Allocate? || op.CloneIntoMutable? ==> op.at !in store.table)
      && (op.Allocate? || op.CloneIntoMutable? ==>
            op.pool.Granted? ==> op.pool.id !in mgr.entries && op.pool.id != FROZEN_SENTINEL)
    }
  }

  /** A fresh buffer fits what a clone writes into it, so the roll-back is never taken. */
  lemma CloneWrites(m: ManagerState, owner: OwnerId, data: seq<byte>, flow: nat, pool: PoolAnswer)
    requires data != []
    ensures var (n, r) := m.Allocate(owner, |data|, flow, pool);
            r.Ok? ==> n.WritePayload(r.value, owner, 0, data, flow).1.Ok?
  {
  }

  lemma GrantedCloneFits(v: View, data: seq<byte>, at: nat, pool: PoolAnswer)
    ensures pool.Granted? ==> v.FillClone(data, at, pool).1 != Failed(BufferError.AllocationFailed)
  {
    hide ManagerState.WritePayload, ManagerState.Release;
    if data != [] {
      CloneWrites(v.mgr, v.Owner(), data, v.store.flow, pool);
    }
  }
}
