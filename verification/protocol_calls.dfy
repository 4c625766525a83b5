/** Whole guest calls as runs of the protocol, what can fail in them, and what a cancelled one leaves behind. */
module ProtocolCalls {
  import opened Wrappers
  import opened Slab
  import opened ManagerSpec
  import opened HostSpec
  import opened InvokerSpec
  import opened Protocol
  import opened ProtocolRuns

  // ---------------------------------------------------------------------------
  // What can fail
  // ---------------------------------------------------------------------------

  /** The wrapper an operation asks for. */
  function Wanted(v: View, op: GuestOp): Option<Wrapper> {
    match op
    case BufferSize(rep) => v.Lookup(rep, Immutable)
    case Read(rep, _, _) => v.Lookup(rep, Immutable)
    case ReadAll(rep) => v.Lookup(rep, Immutable)
    case DropBuffer(rep) => v.Lookup(rep, Immutable)
    case CloneIntoMutable(rep, _, _) => v.Lookup(rep, Immutable)
    case Allocate(_, _, _) => None
    case _ => v.Lookup(op.rep, Mutable)
  }

  /** Operations that go on to look inside the buffer, and trap on what is left of a freeze. */
  predicate Inspects(op: GuestOp) {
    op.BufferSize? || op.Read? || op.ReadAll? || op.CloneIntoMutable? || op.Append? || op.MutableSize? || op.Capacity?
  }

  lemma FillCloneNeverTraps(v: View, data: seq<byte>, at: nat, pool: PoolAnswer)
    ensures !v.FillClone(data, at, pool).1.Trapped?
  {
  }

  /** In every reachable state a host function traps its guest for one of two reasons only: the handle is
      not one of the kind it wants, or it is what a freeze left behind and the function looks inside. In
      particular no release, read or ownership check of the manager is ever refused. */
  lemma TrapsExactlyOnDeadHandles(w: World, s: nat, op: GuestOp)
    requires Sound(w) && Enabled(w, Guest(s, op))
    ensures w.Of(s).Do(op).1.Trapped? <==>
            !op.Allocate? && (Wanted(w.Of(s), op).None? || (Inspects(op) && !Speaks(Wanted(w.Of(s), op).value)))
  {
    hide Names, Named, Owners, ManagerState.Allocate, View.FillClone;
    var home :| Inv(w, home);
    var v := w.Of(s);
    if op.CloneIntoMutable? && v.ReadAll(op.rep).1.Value? {
      FillCloneNeverTraps(v.ReadAll(op.rep).0, v.ReadAll(op.rep).1.answer.bytes, op.at, op.pool);
    }
    if Wanted(v, op).Some? && Speaks(Wanted(v, op).value) {
      ClaimHolds(w, home, s, op.rep);
      if op.DropBuffer? || op.DropMutable? {
        DropDoes(v, op.rep, if op.DropBuffer? then Immutable else Mutable);
      }
    }
  }

  /** A write that does not trap fails exactly when it names a frozen wrapper or ends past the capacity: the
      owner always matches. */
  lemma WriteFailsExactly(w: World, s: nat, rep: nat, offset: nat, data: seq<byte>)
    requires Sound(w) && s in w.stores && w.Of(s).Lookup(rep, Mutable).Some?
    ensures var x := w.Of(s).Lookup(rep, Mutable).value;
            var r := w.Of(s).Write(rep, offset, data).1;
            && (r == Value(Done) <==> offset <= U32_MAX && Speaks(x) && x.handle in w.mgr.entries
                                      && offset + |data| <= |w.mgr.entries[x.handle].memory|)
            && (!r.Value? ==> r.Failed?)
            && (r == Failed(BufferError.CapacityExceeded) <==>
                  offset <= U32_MAX && Speaks(x) && x.handle in w.mgr.entries && offset + |data| > |w.mgr.entries[x.handle].memory|)
  {
    hide Names, Named, Owners;
    var home :| Inv(w, home);
    if Speaks(w.Of(s).Lookup(rep, Mutable).value) {
      ClaimHolds(w, home, s, rep);
    }
  }

  /** Reclaiming an input never fails, and takes exactly the input's buffer. */
  lemma ReclaimNeverFails(w: World, s: nat)
    requires Sound(w) && s in w.calls
    ensures s in w.stores && w.calls[s] in w.stores[s].table
    ensures Reclaim(w.Of(s), w.calls[s]).1 == Completed(())
    ensures var h := w.stores[s].table[w.calls[s]].handle;
            h in w.mgr.entries && Reclaimed(w, s).mgr.entries == w.mgr.entries - {h}
  {
    hide Names, Named, Owners;
    var home :| Inv(w, home);
    var after := ReclaimKeeps(w, home, s);
  }

  // ---------------------------------------------------------------------------
  // A whole call is a run
  // ---------------------------------------------------------------------------

  /** What the tables and the component model let through is what the protocol allows, but for the ids the slab
      hands out. */
  lemma AdmittedExactly(w: World, s: nat, op: GuestOp)
    requires s in w.stores
    ensures Enabled(w, Guest(s, op)) <==>
            && Admits(w.stores[s].table, op)
            && ((op.Allocate? || op.CloneIntoMutable?) && op.pool.Granted? ==> op.pool.id !in w.mgr.entries && op.pool.id != FROZEN_SENTINEL)
  {
  }

  /** The guest's part of a call, as steps: up to and including the operation that traps it. */
  function GuestSteps(v: View, s: nat, ops: seq<GuestOp>): seq<Step>
    decreases |ops|
  {
    if ops == [] then []
    else
      var (t, r) := v.Do(ops[0]);
      [Guest(s, ops[0])] + if r.Trapped? then [] else GuestSteps(t, s, ops[1..])
  }

  lemma {:induction false} GuestRuns(w: World, s: nat, ops: seq<GuestOp>)
    requires s in w.stores && Permitted(w.Of(s), ops)
    ensures Feasible(w, GuestSteps(w.Of(s), s, ops))
    ensures Run(w, GuestSteps(w.Of(s), s, ops)) == w.With(s, RunGuest(w.Of(s), ops).0)
    decreases |ops|
  {
    hide View.Do, View.Possible;
    if ops == [] {
      assert w.With(s, w.Of(s)) == w;
    } else {
      var (t, r) := w.Of(s).Do(ops[0]);
      var u := w.With(s, t);
      assert u == Next(w, Guest(s, ops[0])) && u.Of(s) == t;
      if r.Trapped? {
        assert Run(u, []) == u;
        assert GuestSteps(w.Of(s), s, ops)[1..] == [];
      } else {
        GuestRuns(u, s, ops[1..]);
        assert GuestSteps(w.Of(s), s, ops)[1..] == GuestSteps(t, s, ops[1..]);
        assert u.With(s, RunGuest(t, ops[1..]).0) == w.With(s, RunGuest(t, ops[1..]).0);
      }
    }
  }

  lemma {:induction false} RunConcat(w: World, a: seq<Step>, b: seq<Step>)
    requires Feasible(w, a) && Feasible(Run(w, a), b)
    ensures Feasible(w, a + b) && Run(w, a + b) == Run(Run(w, a), b)
    decreases |a|
  {
    if a == [] {
      assert a + b == b;
    } else {
      RunConcat(Next(w, a[0]), a[1..], b);
      assert (a + b)[0] == a[0] && (a + b)[1..] == a[1..] + b;
    }
  }

  /** The output a call hands over, if it returned one. */
  function Output<T>(end: CallEnd<Option<T>>, trapped: bool): Option<T> {
    if !trapped && end.Returned? then end.value else None
  }

  function ProcessSteps(w: World, s: nat, ticket: nat, rep: nat, ops: seq<GuestOp>, end: CallEnd<Option<nat>>): seq<Step>
    requires s in w.stores && ticket in w.flight
  {
    var v := Marshal(w.Of(s), w.flight[ticket], rep);
    [Begin(s, ticket, rep)] + GuestSteps(v, s, ops) + [End(s, Output(end, RunGuest(v, ops).1), ticket)]
  }

  lemma {:induction false} GuestStepsKeepCalls(w: World, steps: seq<Step>)
    requires Feasible(w, steps) && forall i :: 0 <= i < |steps| ==> steps[i].Guest?
    ensures Run(w, steps).calls == w.calls && Run(w, steps).flight == w.flight
    decreases |steps|
  {
    hide View.Do;
    if steps != [] {
      GuestStepsKeepCalls(Next(w, steps[0]), steps[1..]);
    }
  }

  lemma {:induction false} OnlyGuestSteps(v: View, s: nat, ops: seq<GuestOp>)
    ensures forall i :: 0 <= i < |GuestSteps(v, s, ops)| ==> GuestSteps(v, s, ops)[i].Guest?
    decreases |ops|
  {
    hide View.Do;
    if ops != [] {
      OnlyGuestSteps(v.Do(ops[0]).0, s, ops[1..]);
    }
  }

  lemma SoundAfter(w: World, step: Step)
    requires Sound(w) && Enabled(w, step)
    ensures Sound(Next(w, step))
  {
    hide Inv, Next;
    var home :| Inv(w, home);
    var after := StepKeeps(w, home, step);
  }

  /** Everything up to the guest's return. */
  lemma CallReturns(w: World, s: nat, ticket: nat, rep: nat, ops: seq<GuestOp>)
    requires Sound(w) && Enabled(w, Begin(s, ticket, rep)) && Permitted(Marshal(w.Of(s), w.flight[ticket], rep), ops)
    ensures var v := Marshal(w.Of(s), w.flight[ticket], rep);
            var steps := [Begin(s, ticket, rep)] + GuestSteps(v, s, ops);
            && Feasible(w, steps) && Sound(Run(w, steps))
            && Run(w, steps) == w.With(s, RunGuest(v, ops).0).(calls := w.calls[s := rep], flight := w.flight - {ticket})
  {
    hide View.Do, Inv, Marshal;
    var begun := Next(w, Begin(s, ticket, rep));
    var v := Marshal(w.Of(s), w.flight[ticket], rep);
    var guest := GuestSteps(v, s, ops);
    assert begun.Of(s) == v;
    SoundAfter(w, Begin(s, ticket, rep));
    GuestRuns(begun, s, ops);
    OnlyGuestSteps(v, s, ops);
    GuestStepsKeepCalls(begun, guest);
    RunKeepsSound(begun, guest);
    assert ([Begin(s, ticket, rep)] + guest)[1..] == guest;
  }

  /** A call whose input is reclaimed comes down to handing over its output, if there is one. */
  lemma ProcessEmits(v: View, bindings: Bindings, h: ResourceId, rep: nat, ops: seq<GuestOp>, end: CallEnd<Option<nat>>)
    requires bindings.Transform? || bindings.ManagedTransform?
    requires Reclaim(RunGuest(Marshal(v, h, rep), ops).0, rep).1.Completed?
    ensures var (called, trapped) := RunGuest(Marshal(v, h, rep), ops);
            var (t, r) := InvokeProcess(v, bindings, h, rep, ops, end);
            var (u, q) := EmitOutput(Reclaim(called, rep).0, Output(end, trapped));
            && t == u
            && (r.Completed? && r.value.Some? <==> q.Completed? && q.value.Some?)
            && (r.Completed? ==> r == q)
  {
    hide RunGuest, Marshal, Reclaim, ConvertOutput;
  }

  lemma RunSnoc(w: World, steps: seq<Step>, last: Step)
    requires Feasible(w, steps) && Enabled(Run(w, steps), last)
    ensures Feasible(w, steps + [last]) && Run(w, steps + [last]) == Next(Run(w, steps), last)
  {
    hide Next, Enabled;
    var done := Run(w, steps);
    assert Feasible(Next(done, last), []);
    assert Run(done, [last]) == Next(done, last);
    RunConcat(w, steps, [last]);
  }

  /** Whatever the guest did in a call, its input is reclaimed. */
  lemma InputIsReclaimed(w: World, s: nat, ticket: nat, rep: nat, ops: seq<GuestOp>)
    requires Sound(w) && Enabled(w, Begin(s, ticket, rep)) && Permitted(Marshal(w.Of(s), w.flight[ticket], rep), ops)
    ensures Reclaim(RunGuest(Marshal(w.Of(s), w.flight[ticket], rep), ops).0, rep).1 == Completed(())
  {
    hide View.Do, Inv, Reclaim, Marshal, RunGuest;
    var v := Marshal(w.Of(s), w.flight[ticket], rep);
    CallReturns(w, s, ticket, rep, ops);
    var done := Run(w, [Begin(s, ticket, rep)] + GuestSteps(v, s, ops));
    assert done.Of(s) == RunGuest(v, ops).0;
    ReclaimNeverFails(done, s);
  }

  /** `invoke_process` on a transform is the run: marshal, the guest's operations, reclaim and convert. So
      everything proved of runs holds of calls, on every path out of them. */
  lemma ProcessIsARun(w: World, s: nat, bindings: Bindings, ticket: nat, rep: nat, ops: seq<GuestOp>, end: CallEnd<Option<nat>>)
    requires Sound(w) && Enabled(w, Begin(s, ticket, rep)) && (bindings.Transform? || bindings.ManagedTransform?)
    requires Permitted(Marshal(w.Of(s), w.flight[ticket], rep), ops)
    ensures Feasible(w, ProcessSteps(w, s, ticket, rep, ops, end))
    ensures var (v, r) := InvokeProcess(w.Of(s), bindings, w.flight[ticket], rep, ops, end);
            var landed := w.flight - {ticket};
            Run(w, ProcessSteps(w, s, ticket, rep, ops, end)) ==
            w.With(s, v).(flight := if r.Completed? && r.value.Some? then landed[ticket := r.value.value] else landed)
  {
    hide View.Do, Inv, EmitOutput, Reclaim, Marshal, InvokeProcess, RunGuest;
    var v := Marshal(w.Of(s), w.flight[ticket], rep);
    var (called, trapped) := RunGuest(v, ops);
    var steps := [Begin(s, ticket, rep)] + GuestSteps(v, s, ops);
    CallReturns(w, s, ticket, rep, ops);
    var done := Run(w, steps);
    assert done.Of(s) == called;
    ReclaimNeverFails(done, s);
    ProcessEmits(w.Of(s), bindings, w.flight[ticket], rep, ops, end);
    RunSnoc(w, steps, End(s, Output(end, trapped), ticket));
    assert w.calls[s := rep] - {s} == w.calls;
    var freed := Reclaimed(done, s);
    assert freed.Of(s) == Reclaim(called, rep).0;
    assert forall x: View :: freed.With(s, x).stores == w.With(s, x).stores;
  }

  /** `invoke_push` on a sink likewise; it never hands anything over. */
  lemma PushIsARun(w: World, s: nat, ticket: nat, rep: nat, ops: seq<GuestOp>, end: CallEnd<Signal>)
    requires Sound(w) && Enabled(w, Begin(s, ticket, rep))
    requires Permitted(Marshal(w.Of(s), w.flight[ticket], rep), ops)
    ensures var steps := [Begin(s, ticket, rep)] + GuestSteps(Marshal(w.Of(s), w.flight[ticket], rep), s, ops) + [End(s, None, ticket)];
            && Feasible(w, steps)
            && var (v, r) := InvokePush(w.Of(s), DataSink, w.flight[ticket], rep, ops, end);
               && Run(w, steps) == w.With(s, v).(flight := w.flight - {ticket})
               && (r.Completed? <==> end.Returned? && !RunGuest(Marshal(w.Of(s), w.flight[ticket], rep), ops).1)
  {
    hide View.Do, Inv, Reclaim, Marshal, RunGuest;
    var v := Marshal(w.Of(s), w.flight[ticket], rep);
    var (called, trapped) := RunGuest(v, ops);
    var steps := [Begin(s, ticket, rep)] + GuestSteps(v, s, ops);
    CallReturns(w, s, ticket, rep, ops);
    var done := Run(w, steps);
    assert done.Of(s) == called;
    ReclaimNeverFails(done, s);
    RunSnoc(w, steps, End(s, None, ticket));
    assert w.calls[s := rep] - {s} == w.calls;
    assert Reclaimed(done, s).stores == w.With(s, Reclaim(called, rep).0).stores;
  }

  lemma PullIsARun(w: World, s: nat, ticket: nat, ops: seq<GuestOp>, end: CallEnd<Option<nat>>)
    requires s in w.stores && s !in w.calls && ticket !in w.flight && Permitted(w.Of(s), ops)
    ensures var steps := GuestSteps(w.Of(s), s, ops) + [Pulled(s, Output(end, RunGuest(w.Of(s), ops).1), ticket)];
            && Feasible(w, steps)
            && var (v, r) := InvokePull(w.Of(s), DataSource, ops, end);
               Run(w, steps) ==
               w.With(s, v).(flight := if r.Completed? && r.value.Some? then w.flight[ticket := r.value.value] else w.flight)
  {
    hide View.Do, RunGuest, EmitOutput;
    var (called, trapped) := RunGuest(w.Of(s), ops);
    var guest := GuestSteps(w.Of(s), s, ops);
    GuestRuns(w, s, ops);
    OnlyGuestSteps(w.Of(s), s, ops);
    GuestStepsKeepCalls(w, guest);
    var done := w.With(s, called);
    assert done.Of(s) == called;
    RunSnoc(w, guest, Pulled(s, Output(end, trapped), ticket));
    EmitsNothing(called);
    assert forall x: View :: done.With(s, x) == w.With(s, x);
  }

  lemma EmitsNothing(v: View)
    ensures EmitOutput(v, None) == (v, Completed(None))
  {
  }

  // ---------------------------------------------------------------------------
  // Cancelled calls
  // ---------------------------------------------------------------------------

  /** An input entry that no call will reclaim. */
  ghost predicate Stranded(w: World, s: nat, rep: nat) {
    InputHeld(w.stores, s, rep) && (s in w.calls ==> w.calls[s] != rep)
  }

  /** The guest in store `s` hands the entry over as its own output. The component model lets it do so only
      with a handle it owns, and it never owns an input. */
  predicate Returns(step: Step, s: nat, rep: nat) {
    (step.End? || step.Pulled?) && step.s == s && step.out == Some(rep)
  }

  predicate NeverReturned(steps: seq<Step>, s: nat, rep: nat) {
    forall i :: 0 <= i < |steps| ==> !Returns(steps[i], s, rep)
  }

  /** Before every step of the run, and after the last. */
  ghost predicate StrandedThroughout(w: World, steps: seq<Step>, s: nat, rep: nat)
    requires Feasible(w, steps)
    decreases |steps|
  {
    Stranded(w, s, rep) && (steps != [] ==> StrandedThroughout(Next(w, steps[0]), steps[1..], s, rep))
  }

  lemma ReclaimsOnlyIts(v: View, rep: nat)
    ensures Reclaim(v, rep).0.store.table == v.store.table || Reclaim(v, rep).0.store.table == v.store.table - {rep}
  {
    hide ManagerState.Release;
  }

  lemma EmitsOnlyIts(v: View, out: Option<nat>)
    ensures var t := EmitOutput(v, out).0.store.table;
            t == if out.Some? && v.Lookup(out.value, Immutable).Some? then v.store.table - {out.value} else v.store.table
  {
    hide ManagerState.TransferOwnership;
  }

  /** Only by being returned as an output does a stranded entry ever leave its table. */
  lemma StepKeepsStranded(w: World, step: Step, s: nat, rep: nat)
    requires Enabled(w, step) && Stranded(w, s, rep)
    ensures Stranded(Next(w, step), s, rep) <==> !Returns(step, s, rep)
    ensures !Returns(step, s, rep) ==> Next(w, step).stores[s].table[rep] == w.stores[s].table[rep]
  {
    hide View.Do, EmitOutput, Reclaim;
    match step
    case Guest(z, op) =>
      if z == s { GuestSparesInput(w.Of(s), op, rep); }
    case Begin(z, t, r) =>
    case End(z, out, t) =>
      ReclaimsOnlyIts(w.Of(z), w.calls[z]);
      EmitsOnlyIts(Reclaimed(w, z).Of(z), out);
    case Pulled(z, out, t) =>
      EmitsOnlyIts(w.Of(z), out);
    case Cancel(_) =>
    case Discard(_) =>
  }

  /** The reactor times a call out by dropping it, and with it the only step that would reclaim its input: the
      buffer of a cancelled call stays live, and stays in the table, through every continuation in which the
      guest does not hand out the input it borrowed, and only through those. */
  lemma {:induction false} CancelledInputIsNeverReclaimed(w: World, steps: seq<Step>, s: nat, rep: nat)
    requires Sound(w) && Feasible(w, steps) && Stranded(w, s, rep)
    ensures StrandedThroughout(w, steps, s, rep) <==> NeverReturned(steps, s, rep)
    ensures NeverReturned(steps, s, rep) ==>
              && Stranded(Run(w, steps), s, rep) && Run(w, steps).stores[s].table[rep] == w.stores[s].table[rep]
              && w.stores[s].table[rep].handle in Run(w, steps).mgr.entries
    decreases |steps|
  {
    hide Names, Named, Owners, Next, View.Do;
    if steps == [] {
      var home :| Inv(w, home);
      ClaimHolds(w, home, s, rep);
    } else {
      SoundAfter(w, steps[0]);
      StepKeepsStranded(w, steps[0], s, rep);
      assert NeverReturned(steps, s, rep) <==> !Returns(steps[0], s, rep) && NeverReturned(steps[1..], s, rep) by {
        assert steps == [steps[0]] + steps[1..];
      }
      if !Returns(steps[0], s, rep) {
        CancelledInputIsNeverReclaimed(Next(w, steps[0]), steps[1..], s, rep);
      } else {
        NotStrandedAfter(Next(w, steps[0]), steps[1..], s, rep);
      }
    }
  }

  lemma NotStrandedAfter(w: World, steps: seq<Step>, s: nat, rep: nat)
    requires Feasible(w, steps) && !Stranded(w, s, rep)
    ensures !StrandedThroughout(w, steps, s, rep)
  {
  }

  /** A call under way ends by returning or by being cancelled, and its input outlives it exactly when it is
      cancelled: then for good, unless the guest hands the input out. */
  lemma InputOutlivesExactlyCancelledCalls(w: World, s: nat, step: Step, steps: seq<Step>)
    requires Sound(w) && s in w.calls && Enabled(w, step) && (step == Cancel(s) || (step.End? && step.s == s))
    requires Feasible(Next(w, step), steps)
    ensures s in w.stores && w.calls[s] in w.stores[s].table
    ensures var h := w.stores[s].table[w.calls[s]].handle;
            && (h in Next(w, step).mgr.entries <==> step.Cancel?)
            && (step.Cancel? && NeverReturned(steps, s, w.calls[s]) ==> h in Run(Next(w, step), steps).mgr.entries)
  {
    hide Names, Named, Owners, EmitOutput, Reclaim, Run, Feasible;
    ReclaimNeverFails(w, s);
    match step
    case Cancel(_) =>
      CancelStrands(w, s);
      CancelledInputIsNeverReclaimed(Next(w, step), steps, s, w.calls[s]);
    case End(_, out, _) =>
      EmitKeepsLive(Reclaimed(w, s).Of(s), out);
  }

  lemma CancelStrands(w: World, s: nat)
    requires Sound(w) && s in w.calls
    ensures Stranded(Next(w, Cancel(s)), s, w.calls[s]) && Sound(Next(w, Cancel(s)))
  {
    hide Names, Named, Owners;
    var home :| Inv(w, home);
    SoundAfter(w, Cancel(s));
  }
}
