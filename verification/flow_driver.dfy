/** The flow driver's use of the invoker (`torvyn-reactor/src/flow_driver.rs`) on stores in place: whatever it
    is made to do, the stores, the manager and the elements in its hands are those of a reachable world. */
module FlowDriver {
  import opened Wrappers
  import opened Slab
  import opened HostSpec
  import opened InvokerSpec
  import opened Protocol
  import opened ProtocolRuns
  import opened ProtocolCalls
  import opened ProtocolReap
  import HostState
  import Fuel
  import Invoker
  import opened Manager
  import ManagerRuns
  import opened ManagerSpec

  /** A component instance: its store, its fuel, and what it exports. */
  datatype Stage = Stage(host: HostState.HostState, fuel: Fuel.Store, bindings: Bindings)

  /** Different instances have different stores, and all share the one manager. */
  ghost predicate Ready(manager: DefaultResourceManager, stages: seq<Stage>)
    reads manager, manager.table
  {
    && manager.Valid()
    && (forall i :: 0 <= i < |stages| ==> stages[i].host.resources == manager && stages[i].fuel.Valid())
    && (forall i, j :: 0 <= i < j < |stages| ==> stages[i].host != stages[j].host)
  }

  /** The world is what the stores, the manager and the elements in flight are, between calls. */
  ghost predicate Mirrors(manager: DefaultResourceManager, stages: seq<Stage>, flight: map<nat, ResourceId>, w: World)
    reads manager, manager.table
    reads set i | 0 <= i < |stages| :: stages[i].host
  {
    && w.mgr == manager.State()
    && (forall s: nat :: s in w.stores <==> s < |stages|)
    && (forall s: nat :: s < |stages| ==> w.stores[s] == stages[s].host.Store())
    && w.flight == flight && w.calls == map[]
  }

  /** The elements in flight once `ticket` was handed to a stage that answered `r`. */
  function Landed(flight: map<nat, ResourceId>, ticket: nat, r: Invoked<Option<ResourceId>>): map<nat, ResourceId> {
    if r.Completed? && r.value.Some? then (flight - {ticket})[ticket := r.value.value] else flight - {ticket}
  }

  // ---------------------------------------------------------------------------
  // What a call does to the world
  // ---------------------------------------------------------------------------

  /** What the guest did in a call: the operations it performed, and whether all it asked for were let through. */
  datatype Deed = Deed(performed: seq<GuestOp>, admitted: bool)

  /** How a call of a stage ends for its caller when no host function trapped. */
  ghost function Ends<T>(stage: Stage, cost: nat, deed: Deed, end: CallEnd<T>): CallEnd<T> {
    Invoker.Ending(false, deed.admitted, Invoker.RanFor(stage.fuel, cost), end)
  }

  predicate Transforms(bindings: Bindings) {
    bindings.Transform? || bindings.ManagedTransform?
  }

  /** The elements in flight once a source answered `r` to a pull. */
  function Launched(flight: map<nat, ResourceId>, ticket: nat, r: Invoked<Option<ResourceId>>): map<nat, ResourceId> {
    if r.Completed? && r.value.Some? then flight[ticket := r.value.value] else flight
  }

  function Pulling(w: World, s: nat, ticket: nat, bindings: Bindings, performed: seq<GuestOp>, end: CallEnd<Option<nat>>): World
    requires s in w.stores
  {
    var (v, r) := InvokePull(w.Of(s), bindings, performed, end);
    w.With(s, v).(flight := Launched(w.flight, ticket, r))
  }

  /** An element that reaches a stage that cannot take it was already taken off its queue: it is discarded. */
  function Discarding(w: World, ticket: nat): World
    requires ticket in w.flight
  {
    Next(w, Discard(ticket))
  }

  function Processing(w: World, s: nat, ticket: nat, rep: nat, bindings: Bindings, performed: seq<GuestOp>, end: CallEnd<Option<nat>>): World
    requires s in w.stores && ticket in w.flight
  {
    var (v, r) := InvokeProcess(w.Of(s), bindings, w.flight[ticket], rep, performed, end);
    if Transforms(bindings) then w.With(s, v).(flight := Landed(w.flight, ticket, r)) else Discarding(w, ticket)
  }

  function Pushing(w: World, s: nat, ticket: nat, rep: nat, bindings: Bindings, performed: seq<GuestOp>, end: CallEnd<Signal>): World
    requires s in w.stores && ticket in w.flight
  {
    var (v, r) := InvokePush(w.Of(s), bindings, w.flight[ticket], rep, performed, end);
    if bindings == DataSink then w.With(s, v).(flight := w.flight - {ticket}) else Discarding(w, ticket)
  }

  /** `steps` is a run of the protocol from `w` to `t`. */
  ghost predicate Leads(w: World, steps: seq<Step>, t: World) {
    Feasible(w, steps) && Run(w, steps) == t
  }

  lemma LeadsOn(w: World, a: seq<Step>, u: World, b: seq<Step>, t: World)
    requires Leads(w, a, u) && Leads(u, b, t)
    ensures Leads(w, a + b, t)
  {
    RunConcat(w, a, b);
  }

  lemma LeadsToSound(w: World, steps: seq<Step>, t: World)
    requires Sound(w) && Leads(w, steps, t)
    ensures Sound(t)
  {
    RunKeepsSound(w, steps);
  }

  lemma DiscardLeads(w: World, ticket: nat)
    requires ticket in w.flight
    ensures Leads(w, [Discard(ticket)], Discarding(w, ticket))
  {
    hide Next;
    assert Feasible(Next(w, Discard(ticket)), []);
    assert Run(Next(w, Discard(ticket)), []) == Next(w, Discard(ticket));
    assert [Discard(ticket)][1..] == [];
  }

  /** Whatever the instance exports, a pull is a run. */
  lemma PullLeads(w: World, s: nat, ticket: nat, bindings: Bindings, performed: seq<GuestOp>, end: CallEnd<Option<nat>>)
    returns (steps: seq<Step>)
    requires s in w.stores && s !in w.calls && ticket !in w.flight
    requires bindings == DataSource ==> Permitted(w.Of(s), performed)
    ensures Leads(w, steps, Pulling(w, s, ticket, bindings, performed, end))
  {
    hide RunGuest, View.Do, GuestSteps, Permitted, EmitOutput;
    if bindings == DataSource {
      PullIsARun(w, s, ticket, performed, end);
      steps := GuestSteps(w.Of(s), s, performed) + [Pulled(s, Output(end, RunGuest(w.Of(s), performed).1), ticket)];
    } else {
      steps := [];
      assert w.With(s, w.Of(s)) == w;
    }
  }

  lemma ProcessLeads(w: World, s: nat, ticket: nat, rep: nat, bindings: Bindings, performed: seq<GuestOp>, end: CallEnd<Option<nat>>)
    returns (steps: seq<Step>)
    requires Sound(w) && s in w.stores && s !in w.calls && ticket in w.flight && rep !in w.stores[s].table
    requires Transforms(bindings) ==> Permitted(Marshal(w.Of(s), w.flight[ticket], rep), performed)
    ensures Leads(w, steps, Processing(w, s, ticket, rep, bindings, performed, end))
  {
    hide Sound, RunGuest, View.Do, ProcessSteps, Permitted, InvokeProcess, Marshal;
    if Transforms(bindings) {
      ProcessIsARun(w, s, bindings, ticket, rep, performed, end);
      steps := ProcessSteps(w, s, ticket, rep, performed, end);
    } else {
      DiscardLeads(w, ticket);
      steps := [Discard(ticket)];
    }
  }

  lemma PushLeads(w: World, s: nat, ticket: nat, rep: nat, bindings: Bindings, performed: seq<GuestOp>, end: CallEnd<Signal>)
    returns (steps: seq<Step>)
    requires Sound(w) && s in w.stores && s !in w.calls && ticket in w.flight && rep !in w.stores[s].table
    requires bindings == DataSink ==> Permitted(Marshal(w.Of(s), w.flight[ticket], rep), performed)
    ensures Leads(w, steps, Pushing(w, s, ticket, rep, bindings, performed, end))
  {
    hide Sound, RunGuest, View.Do, GuestSteps, Permitted, InvokePush, Marshal;
    if bindings == DataSink {
      PushIsARun(w, s, ticket, rep, performed, end);
      steps := [Begin(s, ticket, rep)] + GuestSteps(Marshal(w.Of(s), w.flight[ticket], rep), s, performed) + [End(s, None, ticket)];
    } else {
      DiscardLeads(w, ticket);
      steps := [Discard(ticket)];
    }
  }

  lemma PullingIs(w: World, s: nat, ticket: nat, bindings: Bindings, performed: seq<GuestOp>, end: CallEnd<Option<nat>>)
    requires s in w.stores
    ensures var t, (v, r) := Pulling(w, s, ticket, bindings, performed, end), InvokePull(w.Of(s), bindings, performed, end);
            && t.mgr == v.mgr && t.stores == w.stores[s := v.store] && t.calls == w.calls
            && t.flight == Launched(w.flight, ticket, r)
  {
    hide InvokePull;
  }

  /** A stage that cannot take an element leaves its store alone. */
  lemma Mismatched(v: View, bindings: Bindings, h: ResourceId, rep: nat, ops: seq<GuestOp>, end: CallEnd<Option<nat>>, signal: CallEnd<Signal>)
    ensures !Transforms(bindings) ==> InvokeProcess(v, bindings, h, rep, ops, end) == (v, Rejected(Internal))
    ensures bindings != DataSink ==> InvokePush(v, bindings, h, rep, ops, signal) == (v, Rejected(Internal))
  {
  }

  // ---------------------------------------------------------------------------
  // The calls, in place
  // ---------------------------------------------------------------------------

  /** The source is asked for an element; `ticket` is free for it. */
  method ExecutePull(stages: seq<Stage>, s: nat, ticket: nat, cost: nat, ops: seq<GuestOp>, end: CallEnd<Option<nat>>,
                     flight: map<nat, ResourceId>, ghost manager: DefaultResourceManager, ghost w: World)
    returns (r: Invoked<Option<ResourceId>>, flown: map<nat, ResourceId>, ghost deed: Deed, ghost steps: seq<Step>, ghost t: World)
    requires Ready(manager, stages) && Mirrors(manager, stages, flight, w) && Sound(w) && s < |stages| && ticket !in flight
    modifies stages[s].host, stages[s].fuel, manager, manager.table
    ensures Ready(manager, stages) && Mirrors(manager, stages, flown, t)
    ensures stages[s].bindings == DataSource ==> Carried(w.Of(s), ops, deed.performed, deed.admitted)
    ensures (stages[s].host.State(), r) ==
            InvokePull(old(stages[s].host.State()), stages[s].bindings, deed.performed, Ends(stages[s], cost, deed, end))
    ensures if stages[s].bindings == DataSource then
              Invoker.Told(RunGuest(w.Of(s), deed.performed).1, deed.admitted, Invoker.Starved(stages[s].fuel, cost), true, end, r)
            else r == Rejected(Internal)
    ensures t == Pulling(w, s, ticket, stages[s].bindings, deed.performed, Ends(stages[s], cost, deed, end))
    ensures Leads(w, steps, t)
  {
    hide Slab.ResourceTable.Valid, Sound, RunGuest, InvokerSpec.InvokePull, View.Do, Carried, Permitted, Leads, Invoker.Told, Launched,
      Pulling;
    ghost var performed, admitted;
    r, performed, admitted := Invoker.InvokePull(stages[s].host, stages[s].fuel, stages[s].bindings, cost, ops, end);
    flown := Launched(flight, ticket, r);
    deed := Deed(performed, admitted);
    if stages[s].bindings == DataSource {
      CarriedIsPermitted(w.Of(s), ops, performed, admitted);
    }
    steps := PullLeads(w, s, ticket, stages[s].bindings, performed, Ends(stages[s], cost, deed, end));
    t := Pulling(w, s, ticket, stages[s].bindings, performed, Ends(stages[s], cost, deed, end));
    PullingIs(w, s, ticket, stages[s].bindings, performed, Ends(stages[s], cost, deed, end));
  }

  /** An element in flight is handed to a stage; what the stage emits flies on under its ticket. */
  method ExecuteProcess(stages: seq<Stage>, s: nat, ticket: nat, rep: nat, cost: nat, ops: seq<GuestOp>,
                        end: CallEnd<Option<nat>>, flight: map<nat, ResourceId>, ghost manager: DefaultResourceManager, ghost w: World)
    returns (r: Invoked<Option<ResourceId>>, flown: map<nat, ResourceId>, ghost deed: Deed, ghost steps: seq<Step>, ghost t: World)
    requires Ready(manager, stages) && Mirrors(manager, stages, flight, w) && Sound(w)
    requires s < |stages| && ticket in flight && rep !in stages[s].host.table
    modifies stages[s].host, stages[s].fuel, manager, manager.table
    ensures Ready(manager, stages) && Mirrors(manager, stages, flown, t)
    ensures Transforms(stages[s].bindings) ==>
              Carried(Marshal(w.Of(s), flight[ticket], rep), ops, deed.performed, deed.admitted)
    ensures (stages[s].host.State(), r) ==
            InvokeProcess(old(stages[s].host.State()), stages[s].bindings, flight[ticket], rep, deed.performed, Ends(stages[s], cost, deed, end))
    ensures if Transforms(stages[s].bindings) then
              Invoker.Told(RunGuest(Marshal(w.Of(s), flight[ticket], rep), deed.performed).1, deed.admitted,
                           Invoker.Starved(stages[s].fuel, cost), true, end, r)
            else r == Rejected(Internal)
    ensures t == Processing(w, s, ticket, rep, stages[s].bindings, deed.performed, Ends(stages[s], cost, deed, end))
    ensures Leads(w, steps, t)
  {
    hide Slab.ResourceTable.Valid, Sound, RunGuest, InvokerSpec.InvokeProcess, View.Do, Carried, Permitted, Marshal, Leads, Reclaim, Invoker.Told;
    ghost var performed, admitted;
    var bindings := stages[s].bindings;
    r, performed, admitted := Invoker.InvokeProcess(stages[s].host, stages[s].fuel, bindings, flight[ticket], rep, cost, ops, end);
    flown := Landed(flight, ticket, r);
    deed := Deed(performed, admitted);
    if Transforms(bindings) {
      CarriedIsPermitted(Marshal(w.Of(s), flight[ticket], rep), ops, performed, admitted);
      InputIsReclaimed(w, s, ticket, rep, performed);
    } else {
      Mismatched(w.Of(s), bindings, flight[ticket], rep, performed, Ends(stages[s], cost, deed, end), HostError);
    }
    steps := ProcessLeads(w, s, ticket, rep, bindings, performed, Ends(stages[s], cost, deed, end));
    t := Processing(w, s, ticket, rep, bindings, performed, Ends(stages[s], cost, deed, end));
  }

  /** An element in flight is handed to a sink; nothing flies on. */
  method ExecutePush(stages: seq<Stage>, s: nat, ticket: nat, rep: nat, cost: nat, ops: seq<GuestOp>, end: CallEnd<Signal>,
                     flight: map<nat, ResourceId>, ghost manager: DefaultResourceManager, ghost w: World)
    returns (r: Invoked<Signal>, flown: map<nat, ResourceId>, ghost deed: Deed, ghost steps: seq<Step>, ghost t: World)
    requires Ready(manager, stages) && Mirrors(manager, stages, flight, w) && Sound(w)
    requires s < |stages| && ticket in flight && rep !in stages[s].host.table
    modifies stages[s].host, stages[s].fuel, manager, manager.table
    ensures Ready(manager, stages) && Mirrors(manager, stages, flown, t)
    ensures stages[s].bindings == DataSink ==>
              Carried(Marshal(w.Of(s), flight[ticket], rep), ops, deed.performed, deed.admitted)
    ensures (stages[s].host.State(), r) ==
            InvokePush(old(stages[s].host.State()), stages[s].bindings, flight[ticket], rep, deed.performed, Ends(stages[s], cost, deed, end))
    ensures if stages[s].bindings == DataSink then
              var trapped, starved := RunGuest(Marshal(w.Of(s), flight[ticket], rep), deed.performed).1, Invoker.Starved(stages[s].fuel, cost);
              && Invoker.Told(trapped, deed.admitted, starved, true, end, r)
              && (!trapped && deed.admitted && !starved && end.Returned? ==> r == Completed(end.value))
            else r == Rejected(Internal)
    ensures t == Pushing(w, s, ticket, rep, stages[s].bindings, deed.performed, Ends(stages[s], cost, deed, end))
    ensures Leads(w, steps, t)
  {
    hide Slab.ResourceTable.Valid, Sound, RunGuest, InvokerSpec.InvokePush, View.Do, Carried, Permitted, Marshal, Leads, Reclaim, Invoker.Told;
    ghost var performed, admitted;
    var bindings := stages[s].bindings;
    r, performed, admitted := Invoker.InvokePush(stages[s].host, stages[s].fuel, bindings, flight[ticket], rep, cost, ops, end);
    flown := flight - {ticket};
    deed := Deed(performed, admitted);
    if bindings == DataSink {
      CarriedIsPermitted(Marshal(w.Of(s), flight[ticket], rep), ops, performed, admitted);
      InputIsReclaimed(w, s, ticket, rep, performed);
    } else {
      Mismatched(w.Of(s), bindings, flight[ticket], rep, performed, HostError, Ends(stages[s], cost, deed, end));
    }
    steps := PushLeads(w, s, ticket, rep, bindings, performed, Ends(stages[s], cost, deed, end));
    t := Pushing(w, s, ticket, rep, bindings, performed, Ends(stages[s], cost, deed, end));
  }

  // ---------------------------------------------------------------------------
  // Any sequence of them
  // ---------------------------------------------------------------------------

  datatype Action =
    | Pull(s: nat, ticket: nat, cost: nat, ops: seq<GuestOp>, end: CallEnd<Option<nat>>)
    | Process(s: nat, ticket: nat, rep: nat, cost: nat, ops: seq<GuestOp>, end: CallEnd<Option<nat>>)
    | Push(s: nat, ticket: nat, rep: nat, cost: nat, ops: seq<GuestOp>, signal: CallEnd<Signal>)
    | Drop(ticket: nat)

  /** There is such a stage and such an element, and the slot the table hands out for it is not in use. */
  predicate Fits(stages: seq<Stage>, flight: map<nat, ResourceId>, a: Action)
    reads set i | 0 <= i < |stages| :: stages[i].host
  {
    match a
    case Pull(s, ticket, _, _, _) => s < |stages| && ticket !in flight
    case Process(s, ticket, rep, _, _, _) => s < |stages| && ticket in flight && rep !in stages[s].host.table
    case Push(s, ticket, rep, _, _, _) => s < |stages| && ticket in flight && rep !in stages[s].host.table
    case Drop(ticket) => ticket in flight
  }

  /** The same of the world. */
  ghost predicate Fitting(stages: seq<Stage>, w: World, a: Action) {
    match a
    case Pull(s, ticket, _, _, _) => s < |stages| && s in w.stores && ticket !in w.flight
    case Process(s, ticket, rep, _, _, _) => s < |stages| && s in w.stores && ticket in w.flight && rep !in w.stores[s].table
    case Push(s, ticket, rep, _, _, _) => s < |stages| && s in w.stores && ticket in w.flight && rep !in w.stores[s].table
    case Drop(ticket) => ticket in w.flight
  }

  /** The guest did what the action has it ask for. */
  ghost predicate Heeds(stages: seq<Stage>, w: World, a: Action, d: Deed)
    requires Fitting(stages, w, a)
  {
    match a
    case Pull(s, _, _, ops, _) => stages[s].bindings == DataSource ==> Carried(w.Of(s), ops, d.performed, d.admitted)
    case Process(s, ticket, rep, _, ops, _) =>
      Transforms(stages[s].bindings) ==> Carried(Marshal(w.Of(s), w.flight[ticket], rep), ops, d.performed, d.admitted)
    case Push(s, ticket, rep, _, ops, _) =>
      stages[s].bindings == DataSink ==> Carried(Marshal(w.Of(s), w.flight[ticket], rep), ops, d.performed, d.admitted)
    case Drop(_) => true
  }

  /** The world an action leads to; one that does not fit leads nowhere. */
  ghost function Acted(stages: seq<Stage>, w: World, a: Action, d: Deed): World {
    if !Fitting(stages, w, a) then w
    else match a
      case Pull(s, ticket, cost, _, end) => Pulling(w, s, ticket, stages[s].bindings, d.performed, Ends(stages[s], cost, d, end))
      case Process(s, ticket, rep, cost, _, end) =>
        Processing(w, s, ticket, rep, stages[s].bindings, d.performed, Ends(stages[s], cost, d, end))
      case Push(s, ticket, rep, cost, _, end) =>
        Pushing(w, s, ticket, rep, stages[s].bindings, d.performed, Ends(stages[s], cost, d, end))
      case Drop(ticket) => Discarding(w, ticket)
  }

  /** The world after a sequence of actions. */
  ghost function After(stages: seq<Stage>, w: World, actions: seq<Action>, deeds: seq<Deed>): World
    requires |deeds| == |actions|
    decreases |actions|
  {
    if actions == [] then w
    else
      var n := |actions| - 1;
      Acted(stages, After(stages, w, actions[..n], deeds[..n]), actions[n], deeds[n])
  }

  /** Every action that fits is carried out as asked. */
  ghost predicate AllHeeded(stages: seq<Stage>, w: World, actions: seq<Action>, deeds: seq<Deed>)
    requires |deeds| == |actions|
    decreases |actions|
  {
    actions != [] ==>
      var n := |actions| - 1;
      var u := After(stages, w, actions[..n], deeds[..n]);
      AllHeeded(stages, w, actions[..n], deeds[..n]) && (Fitting(stages, u, actions[n]) ==> Heeds(stages, u, actions[n], deeds[n]))
  }

  lemma OneMore(stages: seq<Stage>, w: World, actions: seq<Action>, deeds: seq<Deed>, k: nat, d: Deed)
    requires |deeds| == k < |actions| && AllHeeded(stages, w, actions[..k], deeds)
    requires var u := After(stages, w, actions[..k], deeds); Fitting(stages, u, actions[k]) ==> Heeds(stages, u, actions[k], d)
    ensures AllHeeded(stages, w, actions[..k + 1], deeds + [d])
    ensures After(stages, w, actions[..k + 1], deeds + [d]) == Acted(stages, After(stages, w, actions[..k], deeds), actions[k], d)
  {
    hide Acted, Heeds, Fitting;
    assert actions[..k + 1][..k] == actions[..k] && (deeds + [d])[..k] == deeds;
  }

  method Act(stages: seq<Stage>, a: Action, flight: map<nat, ResourceId>, ghost manager: DefaultResourceManager, ghost w: World)
    returns (flown: map<nat, ResourceId>, ghost deed: Deed, ghost steps: seq<Step>, ghost t: World)
    requires Ready(manager, stages) && Mirrors(manager, stages, flight, w) && Sound(w) && Fits(stages, flight, a)
    modifies set i | 0 <= i < |stages| :: stages[i].host
    modifies set i | 0 <= i < |stages| :: stages[i].fuel
    modifies manager, manager.table
    ensures Ready(manager, stages) && Mirrors(manager, stages, flown, t)
    ensures Fitting(stages, w, a) && Heeds(stages, w, a, deed) && t == Acted(stages, w, a, deed) && Leads(w, steps, t)
  {
    hide Slab.ResourceTable.Valid, Sound, Leads, Carried, Marshal, Pulling, Processing, Pushing;
    match a
    case Pull(s, ticket, cost, ops, end) =>
      var r;
      r, flown, deed, steps, t := ExecutePull(stages, s, ticket, cost, ops, end, flight, manager, w);
    case Process(s, ticket, rep, cost, ops, end) =>
      var r;
      r, flown, deed, steps, t := ExecuteProcess(stages, s, ticket, rep, cost, ops, end, flight, manager, w);
    case Push(s, ticket, rep, cost, ops, signal) =>
      var r;
      r, flown, deed, steps, t := ExecutePush(stages, s, ticket, rep, cost, ops, signal, flight, manager, w);
    case Drop(ticket) =>
      DiscardLeads(w, ticket);
      flown, deed, steps, t := flight - {ticket}, Deed([], true), [Discard(ticket)], Discarding(w, ticket);
  }

  /** The driver is made to act on whatever stores, in whatever way. Stores, manager and elements in flight end
      up as the calls have it, and that is a run of the protocol: each live buffer is named once, by a store's
      table, by an element in flight or by a discarded one, and there are as many as these. */
  method Drive(stages: seq<Stage>, actions: seq<Action>, ghost manager: DefaultResourceManager, ghost start: World)
    returns (flight: map<nat, ResourceId>, ghost deeds: seq<Deed>, ghost steps: seq<Step>, ghost t: World)
    requires Ready(manager, stages) && Initial(start) && Mirrors(manager, stages, map[], start)
    modifies set i | 0 <= i < |stages| :: stages[i].host
    modifies set i | 0 <= i < |stages| :: stages[i].fuel
    modifies manager, manager.table
    ensures Ready(manager, stages) && Mirrors(manager, stages, flight, t)
    ensures |deeds| == |actions| && AllHeeded(stages, start, actions, deeds) && t == After(stages, start, actions, deeds)
    ensures Leads(start, steps, t) && EachNamedOnce(t)
    ensures |t.mgr.entries| == |StorePlaces(t)| + |flight| + |t.lost|
  {
    hide Slab.ResourceTable.Valid, Sound, EachNamedOnce, StorePlaces, Initial, Leads, Acted, Heeds, Fitting, AllHeeded, After;
    InitialIsSound(start);
    flight, deeds, steps, t := map[], [], [], start;
    NothingDone(stages, start);
    for i := 0 to |actions|
      invariant Ready(manager, stages) && Mirrors(manager, stages, flight, t) && Sound(t) && Leads(start, steps, t)
      invariant |deeds| == i && AllHeeded(stages, start, actions[..i], deeds) && t == After(stages, start, actions[..i], deeds)
    {
      ghost var deed, more, u := Deed([], true), [], t;
      FitsIsFitting(manager, stages, flight, t, actions[i]);
      if Fits(stages, flight, actions[i]) {
        flight, deed, more, u := Act(stages, actions[i], flight, manager, t);
        LeadsOn(start, steps, t, more, u);
        LeadsToSound(t, more, u);
        steps := steps + more;
      } else {
        UnfitIsIdle(stages, t, actions[i], deed);
      }
      OneMore(stages, start, actions, deeds, i, deed);
      deeds, t := deeds + [deed], u;
    }
    assert actions[..|actions|] == actions;
    SoundNamesOnce(t);
    LiveCount(t);
  }

  lemma NothingDone(stages: seq<Stage>, w: World)
    ensures AllHeeded(stages, w, [], []) && After(stages, w, [], []) == w && Leads(w, [], w)
  {
  }

  lemma UnfitIsIdle(stages: seq<Stage>, w: World, a: Action, d: Deed)
    requires !Fitting(stages, w, a)
    ensures Acted(stages, w, a, d) == w
  {
  }

  lemma FitsIsFitting(manager: DefaultResourceManager, stages: seq<Stage>, flight: map<nat, ResourceId>, w: World, a: Action)
    requires Mirrors(manager, stages, flight, w)
    ensures Fits(stages, flight, a) <==> Fitting(stages, w, a)
  {
  }

  // ---------------------------------------------------------------------------
  // From nothing to nothing
  // ---------------------------------------------------------------------------

  /** A component to instantiate: its id, the flow it is part of, and what it exports. */
  datatype Instance = Instance(component: nat, flow: nat, bindings: Bindings)

  /** The world of instances that have done nothing yet. */
  ghost function Started(m: ManagerState, instances: seq<Instance>): World {
    World(m, map i: nat | i < |instances| :: Store(instances[i].component, instances[i].flow, map[]), map[], {}, map[])
  }

  /** The stage is one for the instance. */
  predicate Made(stage: Stage, instance: Instance, config: Fuel.EngineConfig) {
    && stage.bindings == instance.bindings
    && stage.fuel.metered == config.fuelEnabled && stage.fuel.fuelBudget == Fuel.StoreBudget(config, None)
  }

  /** Every instance gets its fuel and a store on the one manager, registered with its budget, and with its flow as
      the reactor does when the flow starts. */
  method Instantiate(manager: DefaultResourceManager, instances: seq<Instance>, budget: u64, config: Fuel.EngineConfig)
    returns (stages: seq<Stage>)
    requires manager.Valid() && manager.State().entries == map[] && manager.State().Indexed() && Fuel.Acceptable(config)
    modifies manager
    ensures Ready(manager, stages) && |stages| == |instances|
    ensures forall i :: 0 <= i < |stages| ==> Made(stages[i], instances[i], config) && fresh(stages[i].host) && fresh(stages[i].fuel)
    ensures manager.State().entries == map[] && manager.State().Indexed()
    ensures Mirrors(manager, stages, map[], Started(manager.State(), instances)) && Initial(Started(manager.State(), instances))
  {
    hide Slab.ResourceTable.Valid, ManagerState.Indexed, ManagerState.RegisterComponent, ManagerState.RegisterFlow;
    stages := [];
    for k := 0 to |instances|
      invariant manager.Valid() && manager.State().entries == map[] && manager.State().Indexed()
      invariant |stages| == k && Ready(manager, stages)
      invariant forall i :: 0 <= i < k ==> Made(stages[i], instances[i], config) && fresh(stages[i].host) && fresh(stages[i].fuel)
      invariant forall i :: 0 <= i < k ==> stages[i].host.Store() == Store(instances[i].component, instances[i].flow, map[])
    {
      RegisteringKeepsIndices(manager.State(), instances[k].component, budget, instances[k].flow);
      var host := new HostState.HostState(instances[k].component, instances[k].flow, manager, budget);
      manager.RegisterFlow(instances[k].flow);
      var fuel := new Fuel.Store(config, None);
      stages := stages + [Stage(host, fuel, instances[k].bindings)];
    }
  }

  lemma RegisteringKeepsIndices(m: ManagerState, c: nat, budget: u64, flow: nat)
    requires m.Indexed()
    ensures var n := m.RegisterComponent(c, budget).RegisterFlow(flow); n.Indexed() && n.entries == m.entries
  {
  }

  /** The coordinator's clean-up in place: the component sweep for every stage, then the flow sweep. */
  method ReclaimFlowResources(manager: DefaultResourceManager, flow: nat, components: seq<nat>)
    requires manager.Valid()
    modifies manager, manager.table
    ensures manager.Valid()
    ensures manager.State() == ManagerRuns.ReapFlow(old(manager.State()), flow, components)
  {
    hide Slab.ResourceTable.Valid, ManagerState.ForceReclaim, ManagerState.ReclaimFlowBuffers;
    for i := 0 to |components|
      invariant manager.Valid()
      invariant ManagerRuns.ReapFlow(manager.State(), flow, components[i..]) == ManagerRuns.ReapFlow(old(manager.State()), flow, components)
    {
      manager.ForceReclaim(components[i]);
      assert components[i..][1..] == components[i + 1..];
    }
    manager.ReclaimFlowBuffers(flow);
  }

  /** From `m` to `n` no buffer of the flow is left; none at all if there is no other flow; and every buffer of the
      others is, if no instance of theirs has the id of one that was cleaned up. */
  ghost predicate Cleaned(instances: seq<Instance>, m: ManagerState, n: ManagerState, flow: nat, components: seq<nat>) {
    && n == ManagerRuns.ReapFlow(m, flow, components)
    && (forall h :: h in n.entries ==> n.entries[h].flow != flow)
    && ((forall i :: 0 <= i < |instances| ==> instances[i].flow == flow) ==> n.entries == map[])
    && ((forall i :: 0 <= i < |instances| && instances[i].flow != flow ==> instances[i].component !in components) ==>
          forall h :: h in m.entries && m.entries[h].flow != flow ==> h in n.entries)
  }

  lemma Reaped(instances: seq<Instance>, start: World, steps: seq<Step>, t: World, flow: nat, components: seq<nat>)
    requires start == Started(start.mgr, instances) && start.mgr.entries == map[] && start.mgr.Indexed() && Leads(start, steps, t)
    ensures Cleaned(instances, t.mgr, ManagerRuns.ReapFlow(t.mgr, flow, components), flow, components)
  {
    hide ManagerRuns.ReapFlow, ManagerState.Indexed, Charged;
    ReapLeavesNothing(start, steps, flow, components);
    if forall i :: 0 <= i < |instances| ==> instances[i].flow == flow {
      LastFlowLeavesNothing(start, steps, flow, components);
    }
    if forall i :: 0 <= i < |instances| && instances[i].flow != flow ==> instances[i].component !in components {
      DistinctIdsKeepOtherFlows(start, steps, flow, components);
    }
  }

  /** A new manager, any instances on it, any sequence of actions, and the clean-up of one of the flows. `before` is
      the world the actions led to. */
  method RunAndReap(tableCapacity: nat, instances: seq<Instance>, budget: u64, config: Fuel.EngineConfig, actions: seq<Action>,
                    flow: nat, components: seq<nat>)
    returns (manager: DefaultResourceManager, stages: seq<Stage>, ghost made: ManagerState, ghost deeds: seq<Deed>, ghost before: World)
    requires 0 < tableCapacity <= U32_MAX && Fuel.Acceptable(config)
    ensures Ready(manager, stages) && |stages| == |instances| && forall i :: 0 <= i < |stages| ==> Made(stages[i], instances[i], config)
    ensures made.entries == map[] && |deeds| == |actions| && AllHeeded(stages, Started(made, instances), actions, deeds)
    ensures before == After(stages, Started(made, instances), actions, deeds) && EachNamedOnce(before)
    ensures Cleaned(instances, before.mgr, manager.State(), flow, components)
  {
    hide Slab.ResourceTable.Valid, EachNamedOnce, StorePlaces, Leads, AllHeeded, After, ManagerRuns.ReapFlow, ManagerState.Indexed,
      Fuel.Acceptable, Initial, Started, Cleaned;
    manager := new DefaultResourceManager(tableCapacity);
    ManagerRuns.EmptyIsConsistent();
    stages := Instantiate(manager, instances, budget, config);
    made := manager.State();
    var flight;
    ghost var steps;
    flight, deeds, steps, before := Drive(stages, actions, manager, Started(made, instances));
    ReclaimFlowResources(manager, flow, components);
    StartsFrom(made, instances);
    Reaped(instances, Started(made, instances), steps, before, flow, components);
  }

  lemma StartsFrom(m: ManagerState, instances: seq<Instance>)
    ensures Started(m, instances).mgr == m
  {
  }
}
