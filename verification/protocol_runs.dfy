/** What the ownership protocol guarantees over whole runs. */
module ProtocolRuns {
  import opened Wrappers
  import opened HostSpec
  import opened InvokerSpec
  import opened Protocol

  ghost predicate Sound(w: World) {
    exists home :: Inv(w, home)
  }

  ghost predicate Feasible(w: World, steps: seq<Step>)
    decreases |steps|
  {
    steps != [] ==> Enabled(w, steps[0]) && Feasible(Next(w, steps[0]), steps[1..])
  }

  ghost function Run(w: World, steps: seq<Step>): World
    requires Feasible(w, steps)
    decreases |steps|
  {
    if steps == [] then w else Run(Next(w, steps[0]), steps[1..])
  }

  /** Nothing allocated, nothing in any table, nothing in flight. */
  ghost predicate Initial(w: World) {
    && w.mgr.entries == map[] && w.flight == map[] && w.lost == {} && w.calls == map[]
    && forall s :: s in w.stores ==> w.stores[s].table == map[]
  }

  lemma InitialIsSound(w: World)
    requires Initial(w)
    ensures Sound(w)
  {
    assert Names(w) == map[];
    assert Inv(w, map[]);
  }

  lemma {:induction false} RunKeepsSound(w: World, steps: seq<Step>)
    requires Sound(w) && Feasible(w, steps)
    ensures Sound(Run(w, steps))
    decreases |steps|
  {
    if steps != [] {
      var home :| Inv(w, home);
      var after := StepKeeps(w, home, steps[0]);
      RunKeepsSound(Next(w, steps[0]), steps[1..]);
    }
  }

  // ---------------------------------------------------------------------------
  // Conservation
  // ---------------------------------------------------------------------------

  /** Each live buffer is named in exactly one place, and the owner recorded there is the manager's. */
  ghost predicate EachNamedOnce(w: World) {
    && (forall h :: h in w.mgr.entries ==> exists p :: p in Names(w) && Names(w)[p] == Claim(h, w.mgr.entries[h].owner))
    && (forall p, q :: p in Names(w) && q in Names(w) && Names(w)[p].handle == Names(w)[q].handle ==> p == q)
    && (forall p :: p in Names(w) ==>
          Names(w)[p].handle in w.mgr.entries && w.mgr.entries[Names(w)[p].handle].owner == Names(w)[p].owner)
  }

  lemma SoundNamesOnce(w: World)
    requires Sound(w)
    ensures EachNamedOnce(w)
  {
    hide Names;
    var home :| Inv(w, home);
    forall h | h in w.mgr.entries
      ensures home[h] in Names(w) && Names(w)[home[h]] == Claim(h, w.mgr.entries[h].owner)
    {
      assert h in Owners(w.mgr);
    }
    forall p | p in Names(w)
      ensures var h := Names(w)[p].handle; h in w.mgr.entries && home[h] == p && w.mgr.entries[h].owner == Names(w)[p].owner
    {
      assert HomeIs(home, Names(w)[p].handle, p);
      assert Names(w)[p].handle in Owners(w.mgr);
    }
  }

  lemma DisjointPlaces(w: World)
    ensures |Names(w)| == |StorePlaces(w)| + |FlightPlaces(w)| + |LostPlaces(w)|
  {
    assert Names(w).Keys == StorePlaces(w) + FlightPlaces(w) + LostPlaces(w);
    assert StorePlaces(w) !! FlightPlaces(w);
    assert (StorePlaces(w) + FlightPlaces(w)) !! LostPlaces(w);
  }

  lemma {:induction false} FlightCount(w: World)
    ensures |FlightPlaces(w)| == |w.flight|
    decreases |w.flight|
  {
    if w.flight == map[] {
      assert FlightPlaces(w) == {};
    } else {
      var t :| t in w.flight;
      var u := w.(flight := w.flight - {t});
      FlightCount(u);
      assert InFlight(t) in FlightPlaces(w);
      assert FlightPlaces(u) == FlightPlaces(w) - {InFlight(t)};
    }
  }

  lemma {:induction false} LostCount(w: World)
    ensures |LostPlaces(w)| == |w.lost|
    decreases |w.lost|
  {
    if w.lost == {} {
      assert LostPlaces(w) == {};
    } else {
      var h :| h in w.lost;
      var u := w.(lost := w.lost - {h});
      LostCount(u);
      assert Lost(h) in LostPlaces(w);
      assert LostPlaces(u) == LostPlaces(w) - {Lost(h)};
    }
  }

  /** The buffers that are live are those some wrapper names, those in flight and those discarded. */
  lemma LiveCount(w: World)
    requires Sound(w)
    ensures |w.mgr.entries| == |StorePlaces(w)| + |w.flight| + |w.lost|
  {
    var home :| Inv(w, home);
    NamedCounts(Names(w), Owners(w.mgr), home);
    assert Owners(w.mgr).Keys == w.mgr.entries.Keys;
    assert |Owners(w.mgr)| == |w.mgr.entries|;
    DisjointPlaces(w);
    FlightCount(w);
    LostCount(w);
  }

  /** From an empty start, whatever the interleaving: one name per live buffer, the right owner on it, and
      as many live buffers as wrappers, elements in flight and discarded elements together. */
  lemma Conservation(w: World, steps: seq<Step>)
    requires Initial(w) && Feasible(w, steps)
    ensures EachNamedOnce(Run(w, steps))
    ensures var t := Run(w, steps); |t.mgr.entries| == |StorePlaces(t)| + |t.flight| + |t.lost|
  {
    InitialIsSound(w);
    RunKeepsSound(w, steps);
    SoundNamesOnce(Run(w, steps));
    LiveCount(Run(w, steps));
  }

  lemma EmitKeepsLive(v: View, out: Option<nat>)
    ensures EmitOutput(v, out).0.mgr.entries.Keys == v.mgr.entries.Keys
  {
  }

  lemma EmitKeepsLedger(v: View, out: Option<nat>)
    ensures EmitOutput(v, out).0.mgr.ledger == v.mgr.ledger
  {
  }

  lemma ReclaimKeepsLedger(v: View, rep: nat)
    ensures Reclaim(v, rep).0.mgr.ledger == v.mgr.ledger
  {
  }

  /** Marshalling, reclaiming, handing over, cancelling and discarding move no payload bytes: only guests
      copy. */
  lemma HostStepsCopyNothing(w: World, step: Step)
    requires Enabled(w, step) && !step.Guest?
    ensures Next(w, step).mgr.ledger == w.mgr.ledger
  {
    hide EmitOutput, Reclaim;
    match step
    case End(s, out, _) =>
      ReclaimKeepsLedger(w.Of(s), w.calls[s]);
      EmitKeepsLedger(Reclaimed(w, s).Of(s), out);
    case Pulled(s, out, _) => EmitKeepsLedger(w.Of(s), out);
    case _ =>
  }
}
