/** The buffer ownership protocol: one manager, any number of stores, the elements in the host's hands, and
    every interleaving of guest and host steps. */
module Protocol {
  import opened Wrappers
  import opened Slab
  import opened ManagerSpec
  import opened HostSpec
  import opened InvokerSpec

  /** `flight` holds the elements the host has between two calls, by ticket; `lost` the buffers of elements
      the host discarded without releasing them; `calls` the input entry of each call under way. */
  datatype World = World(
    mgr: ManagerState, stores: map<nat, Store>, flight: map<nat, ResourceId>, lost: set<ResourceId>, calls: map<nat, nat>)
  {
    function Of(s: nat): View
      requires s in stores
    {
      View(stores[s], mgr)
    }

    function With(s: nat, v: View): World {
      this.(stores := stores[s := v.store], mgr := v.mgr)
    }
  }

  /** Where a buffer can be named. */
  datatype Place = InStore(s: nat, rep: nat) | InFlight(ticket: nat) | Lost(h: ResourceId)

  /** What a place says: a handle and its owner. A frozen mutable wrapper says nothing. */
  datatype Claim = Claim(handle: ResourceId, owner: OwnerId)

  predicate Speaks(w: Wrapper) {
    w.handle != FROZEN_SENTINEL
  }

  function StorePlaces(w: World): set<Place> {
    set s, rep | s in w.stores && rep in w.stores[s].table && Speaks(w.stores[s].table[rep]) :: InStore(s, rep)
  }

  function FlightPlaces(w: World): set<Place> {
    set t | t in w.flight :: InFlight(t)
  }

  function LostPlaces(w: World): set<Place> {
    set h | h in w.lost :: Lost(h)
  }

  function Said(w: World, p: Place): Claim
    requires p in StorePlaces(w) + FlightPlaces(w) + LostPlaces(w)
  {
    match p
    case InStore(s, rep) => Claim(w.stores[s].table[rep].handle, w.stores[s].table[rep].owner)
    case InFlight(t) => Claim(w.flight[t], Host)
    case Lost(h) => Claim(h, Host)
  }

  /** Every place that names a buffer, with the owner recorded there. */
  function Names(w: World): map<Place, Claim> {
    map p | p in StorePlaces(w) + FlightPlaces(w) + LostPlaces(w) :: Said(w, p)
  }

  function Owners(m: ManagerState): map<ResourceId, OwnerId> {
    map h | h in m.entries :: m.entries[h].owner
  }

  // ---------------------------------------------------------------------------
  // Naming: each live buffer has one home
  // ---------------------------------------------------------------------------

  predicate HomeIs(home: map<ResourceId, Place>, h: ResourceId, p: Place) {
    h in home && home[h] == p
  }

  /** `home` is a bijection between the live buffers and the places that name one, and the owner recorded
      there is the manager's. */
  ghost predicate Named(names: map<Place, Claim>, owners: map<ResourceId, OwnerId>, home: map<ResourceId, Place>) {
    && (forall h :: h in home <==> h in owners)
    && (forall h :: h in home ==> home[h] in names && names[home[h]] == Claim(h, owners[h]))
    && (forall p :: p in names ==> HomeIs(home, names[p].handle, p))
  }

  lemma NamedComes(names: map<Place, Claim>, owners: map<ResourceId, OwnerId>, home: map<ResourceId, Place>,
                   h: ResourceId, o: OwnerId, p: Place)
    requires Named(names, owners, home) && h !in owners && p !in names
    ensures Named(names[p := Claim(h, o)], owners[h := o], home[h := p])
  {
  }

  lemma NamedGoes(names: map<Place, Claim>, owners: map<ResourceId, OwnerId>, home: map<ResourceId, Place>, p: Place)
    requires Named(names, owners, home) && p in names
    ensures Named(names - {p}, owners - {names[p].handle}, home - {names[p].handle})
  {
  }

  lemma NamedMoves(names: map<Place, Claim>, owners: map<ResourceId, OwnerId>, home: map<ResourceId, Place>,
                   p: Place, q: Place, o: OwnerId)
    requires Named(names, owners, home) && p in names && q !in names
    ensures var h := names[p].handle; Named((names - {p})[q := Claim(h, o)], owners[h := o], home[h := q])
  {
  }

  lemma NothingNamed(names: map<Place, Claim>, owners: map<ResourceId, OwnerId>, home: map<ResourceId, Place>)
    requires Named(names, owners, home) && names == map[]
    ensures owners == map[]
  {
    assert forall h :: h !in home;
  }

  lemma {:induction false} NamedCounts(names: map<Place, Claim>, owners: map<ResourceId, OwnerId>, home: map<ResourceId, Place>)
    requires Named(names, owners, home)
    ensures |names| == |owners|
    decreases |names|
  {
    if names == map[] {
      NothingNamed(names, owners, home);
    } else {
      var p :| p in names;
      var h := names[p].handle;
      assert HomeIs(home, h, p) && h in owners;
      NamedGoes(names, owners, home, p);
      hide Named;
      NamedCounts(names - {p}, owners - {h}, home - {h});
      assert |names - {p}| == |names| - 1 && |owners - {h}| == |owners| - 1;
    }
  }

  // ---------------------------------------------------------------------------
  // The invariant
  // ---------------------------------------------------------------------------

  ghost predicate AllOwned(m: ManagerState) {
    && FROZEN_SENTINEL !in m.entries
    && (forall h :: h in m.entries ==> m.entries[h].state == Owned && m.entries[h].borrowCount == 0)
  }

  /** The entry the host pushed for a call under way is still there. */
  predicate InputHeld(stores: map<nat, Store>, s: nat, rep: nat) {
    && s in stores && rep in stores[s].table
    && stores[s].table[rep].kind == Immutable
    && stores[s].table[rep].owner == Host
    && Speaks(stores[s].table[rep])
  }

  ghost predicate Inv(w: World, home: map<ResourceId, Place>) {
    && Named(Names(w), Owners(w.mgr), home)
    && AllOwned(w.mgr)
    && (forall s :: s in w.calls ==> InputHeld(w.stores, s, w.calls[s]))
  }

  datatype Step =
    | Guest(s: nat, op: GuestOp)
    | Begin(s: nat, ticket: nat, rep: nat)
    | End(s: nat, out: Option<nat>, ticket: nat)
    | Pulled(s: nat, out: Option<nat>, ticket: nat)
    | Cancel(s: nat)
    | Discard(ticket: nat)

  /** A guest may run any host function with any argument at any time, except that it cannot drop an entry
      it holds only a borrow of. It may name any entry as its output. */
  predicate Enabled(w: World, step: Step) {
    match step
    case Guest(s, op) =>
      && s in w.stores && w.Of(s).Possible(op)
      && (op.DropBuffer? && op.rep in w.stores[s].table ==> w.stores[s].table[op.rep].owner != Host)
    case Begin(s, t, rep) => s in w.stores && s !in w.calls && t in w.flight && rep !in w.stores[s].table
    case End(s, _, t) => s in w.calls && s in w.stores && t !in w.flight
    case Pulled(s, _, t) => s in w.stores && s !in w.calls && t !in w.flight
    case Cancel(s) => s in w.calls
    case Discard(t) => t in w.flight
  }

  /** A returned output joins the elements in flight. */
  function Emit(w: World, s: nat, out: Option<nat>, ticket: nat): World
    requires s in w.stores
  {
    match EmitOutput(w.Of(s), out)
    case (v, Completed(Some(h))) => w.With(s, v).(flight := w.flight[ticket := h])
    case (v, _) => w.With(s, v)
  }

  function Reclaimed(w: World, s: nat): World
    requires s in w.calls && s in w.stores
  {
    w.With(s, Reclaim(w.Of(s), w.calls[s]).0).(calls := w.calls - {s})
  }

  function Next(w: World, step: Step): World
    requires Enabled(w, step)
  {
    match step
    case Guest(s, op) => w.With(s, w.Of(s).Do(op).0)
    case Begin(s, t, rep) =>
      w.With(s, Marshal(w.Of(s), w.flight[t], rep)).(flight := w.flight - {t}, calls := w.calls[s := rep])
    case End(s, out, t) => Emit(Reclaimed(w, s), s, out, t)
    case Pulled(s, out, t) => Emit(w, s, out, t)
    case Cancel(s) => w.(calls := w.calls - {s})
    case Discard(t) => w.(flight := w.flight - {t}, lost := w.lost + {w.flight[t]})
  }

  // ---------------------------------------------------------------------------
  // How the names change when a table does
  // ---------------------------------------------------------------------------

  lemma NamesDelete(w: World, s: nat, rep: nat)
    requires s in w.stores
    ensures Names(w.With(s, w.Of(s).Delete(rep))) == Names(w) - {InStore(s, rep)}
  {
  }

  lemma NamesPut(w: World, s: nat, rep: nat, x: Wrapper)
    requires s in w.stores
    ensures Names(w.With(s, w.Of(s).Push(rep, x))) ==
            if Speaks(x) then Names(w)[InStore(s, rep) := Claim(x.handle, x.owner)] else Names(w) - {InStore(s, rep)}
  {
  }

  /** The names are read off the tables, not off the manager. */
  lemma NamesOfStore(w: World, s: nat, v: View, u: View)
    requires s in w.stores && u.store == v.store
    ensures Names(w.With(s, v)) == Names(w.With(s, u))
  {
  }

  lemma NamesUnchanged(w: World, s: nat, v: View)
    requires s in w.stores && v.store == w.stores[s]
    ensures Names(w.With(s, v)) == Names(w)
  {
    assert w.With(s, v).stores == w.stores;
  }

  // ---------------------------------------------------------------------------
  // What the guest's operations do to tables and owners
  // ---------------------------------------------------------------------------

  predicate Quiet(op: GuestOp) {
    !(op.DropBuffer? || op.Freeze? || op.DropMutable? || op.Allocate? || op.CloneIntoMutable?)
  }

  /** Every buffer keeps its owner, and stays exclusively owned if all were. */
  ghost predicate SameOwners(m: ManagerState, n: ManagerState) {
    Owners(n) == Owners(m) && (AllOwned(m) ==> AllOwned(n))
  }

  lemma WritePayloadIsQuiet(m: ManagerState, h: ResourceId, caller: OwnerId, offset: nat, data: seq<byte>, flow: nat)
    ensures SameOwners(m, m.WritePayload(h, caller, offset, data, flow).0)
  {
  }

  lemma WriteIsQuiet(v: View, w: Wrapper, offset: nat, data: seq<byte>)
    ensures v.WriteAt(w, offset, data).0.store == v.store && SameOwners(v.mgr, v.WriteAt(w, offset, data).0.mgr)
  {
    WritePayloadIsQuiet(v.mgr, w.handle, w.owner, offset, data, v.store.flow);
  }

  lemma ReadIsQuiet(v: View, w: Wrapper, offset: nat, len: nat)
    ensures v.ReadRange(w, offset, len).0.store == v.store && SameOwners(v.mgr, v.ReadRange(w, offset, len).0.mgr)
    ensures v.ReadRange(w, offset, len).1.Value? ==> v.ReadRange(w, offset, len).1.answer.Bytes?
  {
  }

  lemma QuietOps(v: View, op: GuestOp)
    requires Quiet(op)
    ensures v.Do(op).0.store == v.store && SameOwners(v.mgr, v.Do(op).0.mgr)
  {
    hide View.WriteAt, View.ReadRange;
    forall w, offset, data { WriteIsQuiet(v, w, offset, data); }
    forall w, offset, len { ReadIsQuiet(v, w, offset, len); }
  }

  lemma ReleaseSucceeds(m: ManagerState, h: ResourceId)
    requires AllOwned(m) && h in m.entries
    ensures var (n, r) := m.Release(h, m.entries[h].owner);
            r.Ok? && n.entries == m.entries - {h} && Owners(n) == Owners(m) - {h} && AllOwned(n)
  {
  }

  lemma DropDoes(v: View, rep: nat, kind: Kind)
    requires AllOwned(v.mgr) && v.Lookup(rep, kind).Some?
    requires var w := v.Lookup(rep, kind).value; Speaks(w) ==> w.handle in v.mgr.entries && w.owner == v.mgr.entries[w.handle].owner
    ensures var w := v.Lookup(rep, kind).value;
            var (t, r) := v.Drop(rep, kind);
            && r == Value(Done) && t.store == v.Delete(rep).store && AllOwned(t.mgr)
            && Owners(t.mgr) == if Speaks(w) then Owners(v.mgr) - {w.handle} else Owners(v.mgr)
  {
    hide ManagerState.Release, Owners;
    var w := v.Lookup(rep, kind).value;
    if Speaks(w) {
      ReleaseSucceeds(v.mgr, w.handle);
    }
  }

  lemma AllocateDoes(m: ManagerState, owner: OwnerId, capacity: nat, flow: nat, pool: PoolAnswer)
    requires AllOwned(m) && (pool.Granted? ==> pool.id !in m.entries && pool.id != FROZEN_SENTINEL)
    ensures var (n, r) := m.Allocate(owner, capacity, flow, pool);
            && AllOwned(n)
            && (r.Ok? ==> pool == Granted(r.value) && Owners(n) == Owners(m)[r.value := owner])
            && (r.Err? ==> n.entries == m.entries)
  {
    hide TierCapacity, Reserve, Unreserve, ZeroBytes, IndexAdd;
  }

  ghost predicate Acquires(v: View, t: View, at: nat, h: ResourceId) {
    && t.store == v.Push(at, Wrapper(Mutable, h, v.Owner())).store
    && Owners(t.mgr) == Owners(v.mgr)[h := v.Owner()]
  }

  lemma FillCloneDoes(v: View, data: seq<byte>, at: nat, pool: PoolAnswer)
    requires AllOwned(v.mgr) && (pool.Granted? ==> pool.id !in v.mgr.entries && pool.id != FROZEN_SENTINEL)
    ensures var (t, r) := v.FillClone(data, at, pool);
            && AllOwned(t.mgr)
            && (r.Value? ==> pool.Granted? && Acquires(v, t, at, pool.id))
            && (!r.Value? ==> t.store == v.store && Owners(t.mgr) == Owners(v.mgr))
  {
    hide ManagerState.Allocate, ManagerState.WritePayload, ManagerState.Release;
    var capacity := if |data| == 0 then 1 else |data|;
    AllocateDoes(v.mgr, v.Owner(), capacity, v.store.flow, pool);
    var (m, r) := v.mgr.Allocate(v.Owner(), capacity, v.store.flow, pool);
    if r.Ok? && data != [] {
      CloneWrites(v.mgr, v.Owner(), data, v.store.flow, pool);
      WritePayloadIsQuiet(m, r.value, v.Owner(), 0, data, v.store.flow);
    }
  }

  lemma CloneDoes(v: View, op: GuestOp)
    requires AllOwned(v.mgr) && v.Possible(op) && op.CloneIntoMutable?
    ensures var (t, r) := v.Do(op);
            && AllOwned(t.mgr)
            && (r.Value? ==> op.pool.Granted? && Acquires(v, t, op.at, op.pool.id))
            && (!r.Value? ==> t.store == v.store && Owners(t.mgr) == Owners(v.mgr))
  {
    hide View.ReadRange, View.FillClone;
    forall w, offset, len { ReadIsQuiet(v, w, offset, len); }
    var (u, read) := v.ReadAll(op.rep);
    if read.Value? {
      assert forall h :: h in u.mgr.entries <==> h in Owners(u.mgr);
      FillCloneDoes(u, read.answer.bytes, op.at, op.pool);
    }
  }

  // ---------------------------------------------------------------------------
  // The invariant, step by step
  // ---------------------------------------------------------------------------

  /** The claim a place makes is borne out by the manager. */
  lemma ClaimHolds(w: World, home: map<ResourceId, Place>, s: nat, rep: nat)
    requires Named(Names(w), Owners(w.mgr), home) && s in w.stores && rep in w.stores[s].table
    requires Speaks(w.stores[s].table[rep])
    ensures var x := w.stores[s].table[rep];
            && InStore(s, rep) in Names(w) && Names(w)[InStore(s, rep)] == Claim(x.handle, x.owner)
            && x.handle in w.mgr.entries && w.mgr.entries[x.handle].owner == x.owner
            && HomeIs(home, x.handle, InStore(s, rep))
  {
    var p := InStore(s, rep);
    assert p in StorePlaces(w);
    assert HomeIs(home, Names(w)[p].handle, p);
    assert forall h :: h in Owners(w.mgr) <==> h in w.mgr.entries;
  }

  lemma Settles(w: World, home: map<ResourceId, Place>, s: nat, v: View)
    requires s in w.stores && Named(Names(w), Owners(w.mgr), home)
    requires v.store == w.stores[s] && Owners(v.mgr) == Owners(w.mgr)
    ensures Named(Names(w.With(s, v)), Owners(w.With(s, v).mgr), home)
  {
    NamesUnchanged(w, s, v);
  }

  lemma DropKeeps(w: World, home: map<ResourceId, Place>, s: nat, rep: nat, kind: Kind) returns (after: map<ResourceId, Place>)
    requires Named(Names(w), Owners(w.mgr), home) && AllOwned(w.mgr) && s in w.stores
    ensures var (v, r) := w.Of(s).Drop(rep, kind);
            && Named(Names(w.With(s, v)), Owners(v.mgr), after) && AllOwned(v.mgr)
            && r == if w.Of(s).Lookup(rep, kind).Some? then Value(Done) else Trapped(NoSuchResource)
  {
    hide Names, Owners, Named;
    after := home;
    var found := w.Of(s).Lookup(rep, kind);
    var v := w.Of(s).Drop(rep, kind).0;
    if found.None? {
      Settles(w, home, s, v);
    } else {
      NamesDelete(w, s, rep);
      NamesOfStore(w, s, v, w.Of(s).Delete(rep));
      if Speaks(found.value) {
        ClaimHolds(w, home, s, rep);
        NamedGoes(Names(w), Owners(w.mgr), home, InStore(s, rep));
        after := home - {found.value.handle};
      } else {
        SilentPlace(w, s, rep);
      }
      DropDoes(w.Of(s), rep, kind);
    }
  }

  lemma SilentPlace(w: World, s: nat, rep: nat)
    requires s in w.stores && (rep in w.stores[s].table ==> !Speaks(w.stores[s].table[rep]))
    ensures InStore(s, rep) !in Names(w)
    ensures Names(w) - {InStore(s, rep)} == Names(w)
  {
  }

  lemma FreezeKeeps(w: World, home: map<ResourceId, Place>, s: nat, rep: nat, at: nat) returns (after: map<ResourceId, Place>)
    requires Named(Names(w), Owners(w.mgr), home) && s in w.stores && at !in w.stores[s].table
    ensures var v := w.Of(s).Freeze(rep, at).0; Named(Names(w.With(s, v)), Owners(v.mgr), after) && v.mgr == w.mgr
  {
    hide Names, Owners, Named;
    after := home;
    var found := w.Of(s).Lookup(rep, Mutable);
    var v := w.Of(s).Freeze(rep, at).0;
    if found.None? {
      Settles(w, home, s, v);
    } else {
      var x := found.value;
      var blank := x.(handle := FROZEN_SENTINEL);
      var u := w.With(s, w.Of(s).Push(rep, blank));
      NamesPut(w, s, rep, blank);
      NamesPut(u, s, at, x.(kind := Immutable));
      assert u.With(s, u.Of(s).Push(at, x.(kind := Immutable))) == w.With(s, v);
      SilentPlace(w, s, at);
      if Speaks(x) {
        ClaimHolds(w, home, s, rep);
        NamedMoves(Names(w), Owners(w.mgr), home, InStore(s, rep), InStore(s, at), x.owner);
        OwnersAgain(w.mgr, x.handle);
        after := home[x.handle := InStore(s, at)];
      } else {
        SilentPlace(w, s, rep);
        SilentPlace(u, s, at);
      }
    }
  }

  lemma OwnersAgain(m: ManagerState, h: ResourceId)
    requires h in m.entries
    ensures Owners(m)[h := m.entries[h].owner] == Owners(m)
  {
  }

  lemma AcquireKeeps(w: World, home: map<ResourceId, Place>, s: nat, v: View, at: nat, h: ResourceId)
    returns (after: map<ResourceId, Place>)
    requires Named(Names(w), Owners(w.mgr), home) && s in w.stores && at !in w.stores[s].table
    requires h !in w.mgr.entries && h != FROZEN_SENTINEL && Acquires(w.Of(s), v, at, h)
    ensures Named(Names(w.With(s, v)), Owners(v.mgr), after)
  {
    hide Names, Named;
    var x := Wrapper(Mutable, h, w.Of(s).Owner());
    NamesOfStore(w, s, v, w.Of(s).Push(at, x));
    NamesPut(w, s, at, x);
    SilentPlace(w, s, at);
    assert h !in Owners(w.mgr);
    hide Owners;
    NamedComes(Names(w), Owners(w.mgr), home, h, x.owner, InStore(s, at));
    after := home[h := InStore(s, at)];
  }

  lemma GuestKeepsNames(w: World, home: map<ResourceId, Place>, s: nat, op: GuestOp) returns (after: map<ResourceId, Place>)
    requires Named(Names(w), Owners(w.mgr), home) && AllOwned(w.mgr) && s in w.stores && w.Of(s).Possible(op)
    ensures var v := w.Of(s).Do(op).0; Named(Names(w.With(s, v)), Owners(v.mgr), after) && AllOwned(v.mgr)
  {
    hide Names, Owners, Named;
    var (v, r) := w.Of(s).Do(op);
    if op.DropBuffer? || op.DropMutable? {
      after := DropKeeps(w, home, s, op.rep, if op.DropBuffer? then Immutable else Mutable);
    } else if op.Freeze? {
      after := FreezeKeeps(w, home, s, op.rep, op.at);
    } else if op.Allocate? || op.CloneIntoMutable? {
      hide View.CloneIntoMutable, ManagerState.Allocate;
      if op.Allocate? {
        AllocateDoes(w.mgr, w.Of(s).Owner(), op.hint, w.stores[s].flow, op.pool);
        OwnersOfEntries(w.mgr, v.mgr);
      } else {
        CloneDoes(w.Of(s), op);
      }
      if r.Value? {
        after := AcquireKeeps(w, home, s, v, op.at, op.pool.id);
      } else {
        Settles(w, home, s, v);
        after := home;
      }
    } else {
      QuietOps(w.Of(s), op);
      Settles(w, home, s, v);
      after := home;
    }
  }

  lemma OwnersOfEntries(m: ManagerState, n: ManagerState)
    ensures m.entries == n.entries ==> Owners(m) == Owners(n)
  {
  }

  /** No guest operation the component model admits touches the entry of an input the guest only borrows. */
  lemma GuestSparesInput(v: View, op: GuestOp, rep: nat)
    requires v.Possible(op) && rep in v.store.table
    requires v.store.table[rep].kind == Immutable && v.store.table[rep].owner == Host
    requires op.DropBuffer? && op.rep in v.store.table ==> v.store.table[op.rep].owner != Host
    ensures var t := v.Do(op).0.store.table; rep in t && t[rep] == v.store.table[rep]
  {
    hide ManagerState.Allocate, ManagerState.Release, View.FillClone, View.ReadRange, View.WriteAt;
    if Quiet(op) {
      QuietOps(v, op);
    } else if op.CloneIntoMutable? {
      forall x, offset, len { ReadIsQuiet(v, x, offset, len); }
      var (u, read) := v.ReadAll(op.rep);
      if read.Value? {
        FillCloneTable(u, read.answer.bytes, op.at, op.pool);
      }
    }
  }

  lemma FillCloneTable(v: View, data: seq<byte>, at: nat, pool: PoolAnswer)
    ensures forall rep :: rep in v.store.table && rep != at ==>
              var t := v.FillClone(data, at, pool).0.store.table; rep in t && t[rep] == v.store.table[rep]
  {
    hide ManagerState.Allocate, ManagerState.WritePayload, ManagerState.Release;
  }

  // ---------------------------------------------------------------------------
  // Host steps
  // ---------------------------------------------------------------------------

  lemma NamesFlown(w: World, t: nat, h: ResourceId)
    ensures Names(w.(flight := w.flight[t := h])) == Names(w)[InFlight(t) := Claim(h, Host)]
  {
    var u := w.(flight := w.flight[t := h]);
    assert FlightPlaces(u) == FlightPlaces(w) + {InFlight(t)};
  }

  lemma NamesLanded(w: World, t: nat)
    ensures Names(w.(flight := w.flight - {t})) == Names(w) - {InFlight(t)}
  {
    var u := w.(flight := w.flight - {t});
    assert FlightPlaces(u) == FlightPlaces(w) - {InFlight(t)};
  }

  lemma NamesLost(w: World, h: ResourceId)
    ensures Names(w.(lost := w.lost + {h})) == Names(w)[Lost(h) := Claim(h, Host)]
  {
    var u := w.(lost := w.lost + {h});
    assert LostPlaces(u) == LostPlaces(w) + {Lost(h)};
  }

  lemma NamesOfCalls(w: World, calls: map<nat, nat>)
    ensures Names(w.(calls := calls)) == Names(w)
  {
  }

  /** What an element in flight says is borne out by the manager. */
  lemma FlightHolds(w: World, home: map<ResourceId, Place>, t: nat)
    requires Named(Names(w), Owners(w.mgr), home) && t in w.flight
    ensures InFlight(t) in Names(w) && Names(w)[InFlight(t)] == Claim(w.flight[t], Host)
    ensures w.flight[t] in w.mgr.entries && w.mgr.entries[w.flight[t]].owner == Host
    ensures HomeIs(home, w.flight[t], InFlight(t))
  {
    assert InFlight(t) in FlightPlaces(w);
    assert HomeIs(home, Names(w)[InFlight(t)].handle, InFlight(t));
    assert forall h :: h in Owners(w.mgr) <==> h in w.mgr.entries;
  }

  lemma NotFlying(w: World, t: nat)
    requires t !in w.flight
    ensures InFlight(t) !in Names(w)
  {
  }

  lemma BeginKeeps(w: World, home: map<ResourceId, Place>, s: nat, t: nat, rep: nat) returns (after: map<ResourceId, Place>)
    requires Inv(w, home) && Enabled(w, Begin(s, t, rep))
    ensures Inv(Next(w, Begin(s, t, rep)), after)
  {
    hide Names, Owners, Named;
    var h := w.flight[t];
    var x := Wrapper(Immutable, h, Host);
    var pushed := w.With(s, w.Of(s).Push(rep, x));
    FlightHolds(w, home, t);
    OwnersAgain(w.mgr, h);
    NamesPut(w, s, rep, x);
    NamesLanded(pushed, t);
    SilentPlace(w, s, rep);
    NamedMoves(Names(w), Owners(w.mgr), home, InFlight(t), InStore(s, rep), Host);
    assert (Names(w) - {InFlight(t)})[InStore(s, rep) := Claim(h, Host)] == Names(w)[InStore(s, rep) := Claim(h, Host)] - {InFlight(t)};
    NamesOfCalls(pushed.(flight := w.flight - {t}), w.calls[s := rep]);
    after := home[h := InStore(s, rep)];
  }

  /** The input entry the host pushed is still good when the call returns: reclaiming it succeeds. */
  lemma ReclaimKeeps(w: World, home: map<ResourceId, Place>, s: nat) returns (after: map<ResourceId, Place>)
    requires Inv(w, home) && s in w.calls
    ensures Reclaim(w.Of(s), w.calls[s]).1 == Completed(())
    ensures Inv(Reclaimed(w, s), after)
    ensures var h := w.stores[s].table[w.calls[s]].handle;
            h in w.mgr.entries && Reclaimed(w, s).mgr.entries == w.mgr.entries - {h}
  {
    hide Names, Owners, Named;
    var rep := w.calls[s];
    var x := w.stores[s].table[rep];
    var v := Reclaim(w.Of(s), rep).0;
    ClaimHolds(w, home, s, rep);
    ReleaseSucceeds(w.mgr, x.handle);
    NamesDelete(w, s, rep);
    NamesOfStore(w, s, v, w.Of(s).Delete(rep));
    NamedGoes(Names(w), Owners(w.mgr), home, InStore(s, rep));
    NamesOfCalls(w.With(s, v), w.calls - {s});
    after := home - {x.handle};
  }

  lemma TransferSucceeds(m: ManagerState, h: ResourceId)
    requires AllOwned(m) && h in m.entries
    ensures var (n, r) := m.TransferOwnership(h, m.entries[h].owner, Host);
            && r.Ok? && AllOwned(n) && Owners(n) == Owners(m)[h := Host]
            && n.entries == m.entries[h := m.entries[h].(owner := Host)]
  {
  }

  /** Taking over what the guest returned fails exactly when the entry is missing, is not immutable, or is
      what is left of a second freeze. */
  lemma EmitKeeps(w: World, home: map<ResourceId, Place>, s: nat, out: Option<nat>, t: nat) returns (after: map<ResourceId, Place>)
    requires Inv(w, home) && s in w.stores && s !in w.calls && t !in w.flight
    ensures Inv(Emit(w, s, out, t), after)
    ensures EmitOutput(w.Of(s), out).1.Completed? <==>
            out.None? || (w.Of(s).Lookup(out.value, Immutable).Some? && Speaks(w.Of(s).Lookup(out.value, Immutable).value))
  {
    hide Names, Owners, Named;
    after := home;
    var (v, r) := EmitOutput(w.Of(s), out);
    if out.None? || w.Of(s).Lookup(out.value, Immutable).None? {
      Settles(w, home, s, v);
    } else {
      var rep := out.value;
      var x := w.stores[s].table[rep];
      NamesDelete(w, s, rep);
      NamesOfStore(w, s, v, w.Of(s).Delete(rep));
      if Speaks(x) {
        ClaimHolds(w, home, s, rep);
        TransferSucceeds(w.mgr, x.handle);
        NamesFlown(w.With(s, v), t, x.handle);
        NotFlying(w, t);
        NamedMoves(Names(w), Owners(w.mgr), home, InStore(s, rep), InFlight(t), Host);
        after := home[x.handle := InFlight(t)];
      } else {
        SilentPlace(w, s, rep);
      }
    }
  }

  lemma FlyingIsNotLost(w: World, home: map<ResourceId, Place>, t: nat)
    requires Named(Names(w), Owners(w.mgr), home) && t in w.flight
    ensures Lost(w.flight[t]) !in Names(w)
  {
    FlightHolds(w, home, t);
    assert home[w.flight[t]] != Lost(w.flight[t]);
  }

  lemma DiscardKeeps(w: World, home: map<ResourceId, Place>, t: nat) returns (after: map<ResourceId, Place>)
    requires Inv(w, home) && t in w.flight
    ensures Inv(Next(w, Discard(t)), after)
  {
    hide Names, Owners, Named;
    var h := w.flight[t];
    FlightHolds(w, home, t);
    FlyingIsNotLost(w, home, t);
    OwnersAgain(w.mgr, h);
    NamesLanded(w, t);
    NamesLost(w.(flight := w.flight - {t}), h);
    NamedMoves(Names(w), Owners(w.mgr), home, InFlight(t), Lost(h), Host);
    after := home[h := Lost(h)];
  }

  lemma GuestKeeps(w: World, home: map<ResourceId, Place>, s: nat, op: GuestOp) returns (after: map<ResourceId, Place>)
    requires Inv(w, home) && Enabled(w, Guest(s, op))
    ensures Inv(Next(w, Guest(s, op)), after)
  {
    hide Names, Owners, Named, View.Do;
    after := GuestKeepsNames(w, home, s, op);
    if s in w.calls {
      GuestSparesInput(w.Of(s), op, w.calls[s]);
    }
  }

  /** Every step, from any state the invariant admits, leaves one it admits. */
  lemma StepKeeps(w: World, home: map<ResourceId, Place>, step: Step) returns (after: map<ResourceId, Place>)
    requires Inv(w, home) && Enabled(w, step)
    ensures Inv(Next(w, step), after)
  {
    hide Names, Owners, Named;
    match step
    case Guest(s, op) => after := GuestKeeps(w, home, s, op);
    case Begin(s, t, rep) => after := BeginKeeps(w, home, s, t, rep);
    case End(s, out, t) =>
      var freed := ReclaimKeeps(w, home, s);
      after := EmitKeeps(Reclaimed(w, s), freed, s, out, t);
    case Pulled(s, out, t) => after := EmitKeeps(w, home, s, out, t);
    case Cancel(s) =>
      NamesOfCalls(w, w.calls - {s});
      after := home;
    case Discard(t) => after := DiscardKeeps(w, home, t);
  }
}
