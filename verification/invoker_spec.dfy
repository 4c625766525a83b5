/** The host's side of a guest call (`torvyn-engine/src/wasmtime_invoker.rs`): marshalling the input,
    reclaiming it, taking the output over, and the three entry points as a whole.
 */
module InvokerSpec {
  import opened Wrappers
  import opened ManagerSpec
  import opened HostSpec

  datatype ProcessError = InvalidInput | Unavailable | Internal | DeadlineExceeded | Fatal

  datatype Invoked<+T> = Completed(value: T) | Rejected(error: ProcessError)

  /** What a component exports, or nothing recognised. */
  datatype Bindings = DataSource | Transform | ManagedTransform | DataSink | Nothing

  /** How a guest call ended. A host function that trapped the guest surfaces as `HostError`. */
  datatype CallEnd<+T> = OutOfFuel | GuestTrap | HostError | GuestError(error: ProcessError) | Returned(value: T)

  datatype Signal = Ready | Pause

  /** The host pushes an owning entry for the buffer and hands the guest a borrow of it. */
  function Marshal(v: View, h: Slab.ResourceId, rep: nat): View {
    v.Push(rep, Wrapper(Immutable, h, Host))
  }

  /** The input entry is deleted and its buffer released. */
  function Reclaim(v: View, rep: nat): (View, Invoked<()>) {
    match v.Lookup(rep, Immutable)
    case None => (v, Rejected(Internal))
    case Some(w) =>
      match v.mgr.Release(w.handle, w.owner)
      case (m, Err(_)) => (v.Delete(rep).(mgr := m), Rejected(Internal))
      case (m, Ok(_)) => (v.Delete(rep).(mgr := m), Completed(()))
  }

  /** The entry the guest returned is deleted and its buffer passes to the host. */
  function ConvertOutput(v: View, rep: nat): (View, Invoked<Slab.ResourceId>) {
    match v.Lookup(rep, Immutable)
    case None => (v, Rejected(Internal))
    case Some(w) =>
      match v.mgr.TransferOwnership(w.handle, w.owner, Host)
      case (m, Err(_)) => (v.Delete(rep).(mgr := m), Rejected(Internal))
      case (m, Ok(_)) => (v.Delete(rep).(mgr := m), Completed(w.handle))
  }

  /** The guest's calls into the host, in order, up to the first that traps it. */
  function RunGuest(v: View, ops: seq<GuestOp>): (View, bool)
    decreases |ops|
  {
    if ops == [] then (v, false)
    else
      var (t, r) := v.Do(ops[0]);
      if r.Trapped? then (t, true) else RunGuest(t, ops[1..])
  }

  /** What the tables and the component model let through: a slot in use is not handed out again, and a
      handle that is only borrowed is not dropped. */
  predicate Admits(table: map<nat, Wrapper>, op: GuestOp) {
    && (op.Freeze? || op.Allocate? || op.CloneIntoMutable? ==> op.at !in table)
    && (op.DropBuffer? && op.rep in table ==> table[op.rep].owner != Host)
  }

  /** The guest's operations are let through, and buffers granted to it get fresh ids. */
  ghost predicate Permitted(v: View, ops: seq<GuestOp>)
    decreases |ops|
  {
    ops != [] ==>
      && v.Possible(ops[0]) && Admits(v.store.table, ops[0])
      && var (t, r) := v.Do(ops[0]);
         (!r.Trapped? ==> Permitted(t, ops[1..]))
  }

  /** The call is the one asked for, up to the pool's answer. */
  predicate SameCall(asked: GuestOp, done: GuestOp) {
    match asked
    case Allocate(hint, at, _) => done.Allocate? && done.hint == hint && done.at == at
    case CloneIntoMutable(rep, at, _) => done.CloneIntoMutable? && done.rep == rep && done.at == at
    case _ => done == asked
  }

  /** Half of all ids are live: fewer and the slab can still grow. */
  predicate NearlyFull(m: ManagerState) {
    2 * |m.entries| > Slab.U32_MAX
  }

  /** The pool has memory exactly when `asked` says so, ids are fresh, and an allocation for which there is
      memory fails for want of a slot only when the slab cannot grow. */
  ghost predicate Answers(v: View, asked: GuestOp, done: GuestOp) {
    && SameCall(asked, done) && v.Possible(done)
    && (done.Allocate? || done.CloneIntoMutable? ==>
          && (done.pool.OutOfMemory? <==> asked.pool.OutOfMemory?)
          && (v.Do(done).1 == Failed(BufferError.AllocationFailed) ==> done.pool.OutOfMemory? || NearlyFull(v.mgr)))
  }

  /** `performed` is what becomes of the guest's operations: each in turn, up to the first that is not let
      through, when `admitted` is false, or that traps the guest. */
  ghost predicate Carried(v: View, ops: seq<GuestOp>, performed: seq<GuestOp>, admitted: bool)
    decreases |ops|
  {
    if ops == [] then performed == [] && admitted
    else if !Admits(v.store.table, ops[0]) then performed == [] && !admitted
    else
      && performed != [] && Answers(v, ops[0], performed[0])
      && var (t, r) := v.Do(performed[0]);
         if r.Trapped? then performed[1..] == [] && admitted else Carried(t, ops[1..], performed[1..], admitted)
  }

  lemma {:induction false} CarriedIsPermitted(v: View, ops: seq<GuestOp>, performed: seq<GuestOp>, admitted: bool)
    requires Carried(v, ops, performed, admitted)
    ensures Permitted(v, performed)
    decreases |ops|
  {
    hide View.Do;
    if performed != [] {
      var (t, r) := v.Do(performed[0]);
      if !r.Trapped? {
        CarriedIsPermitted(t, ops[1..], performed[1..], admitted);
      }
    }
  }

  function CallError<T>(end: CallEnd<T>): ProcessError
    requires !end.Returned?
  {
    match end
    case OutOfFuel => DeadlineExceeded
    case GuestTrap => Fatal
    case HostError => Internal
    case GuestError(e) => e
  }

  function InvokePull(v: View, bindings: Bindings, ops: seq<GuestOp>, end: CallEnd<Option<nat>>)
    : (View, Invoked<Option<Slab.ResourceId>>)
  {
    if bindings != DataSource then (v, Rejected(Internal))
    else
      var (called, trapped) := RunGuest(v, ops);
      var outer := if trapped then HostError else end;
      if !outer.Returned? then (called, Rejected(CallError(outer)))
      else EmitOutput(called, outer.value)
  }

  function EmitOutput(v: View, out: Option<nat>): (View, Invoked<Option<Slab.ResourceId>>) {
    match out
    case None => (v, Completed(None))
    case Some(rep) =>
      match ConvertOutput(v, rep)
      case (t, Rejected(e)) => (t, Rejected(e))
      case (t, Completed(h)) => (t, Completed(Some(h)))
  }

  /** The archetype is checked before anything is marshalled, and the input is reclaimed before the call's
      result is looked at. */
  function InvokeProcess(v: View, bindings: Bindings, h: Slab.ResourceId, rep: nat, ops: seq<GuestOp>, end: CallEnd<Option<nat>>)
    : (View, Invoked<Option<Slab.ResourceId>>)
  {
    if !(bindings.Transform? || bindings.ManagedTransform?) then (v, Rejected(Internal))
    else
      var (called, trapped) := RunGuest(Marshal(v, h, rep), ops);
      var outer := if trapped then HostError else end;
      var (freed, reclaimed) := Reclaim(called, rep);
      if !outer.Returned? && !outer.GuestError? then (freed, Rejected(CallError(outer)))
      else if reclaimed.Rejected? then (freed, Rejected(reclaimed.error))
      else if outer.GuestError? then (freed, Rejected(outer.error))
      else EmitOutput(freed, outer.value)
  }

  function InvokePush(v: View, bindings: Bindings, h: Slab.ResourceId, rep: nat, ops: seq<GuestOp>, end: CallEnd<Signal>)
    : (View, Invoked<Signal>)
  {
    if bindings != DataSink then (v, Rejected(Internal))
    else
      var (called, trapped) := RunGuest(Marshal(v, h, rep), ops);
      var outer := if trapped then HostError else end;
      var (freed, reclaimed) := Reclaim(called, rep);
      if !outer.Returned? && !outer.GuestError? then (freed, Rejected(CallError(outer)))
      else if reclaimed.Rejected? then (freed, Rejected(reclaimed.error))
      else if outer.GuestError? then (freed, Rejected(outer.error))
      else (freed, Completed(outer.value))
  }
}
