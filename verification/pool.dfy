/** The buffer pool of `torvyn-resources/src/pool.rs`. One tier is a lock-free stack of free slots whose head carries
    a tag, stepped by any number of threads in any order. */
module Pool {
  import opened Wrappers
  import opened ManagerSpec

  const TAGS: nat := 0x1_0000_0000

  /** The head of the stack. `swings` counts the successful swings of the head; the source keeps only the tag. */
  datatype Head = Head(swings: nat, top: Option<nat>)
  {
    function Tag(): nat {
      swings % TAGS
    }
  }

  /** The words a compare-and-swap cannot tell apart. */
  predicate SameWord(a: Head, b: Head) {
    a.Tag() == b.Tag() && a.top == b.top
  }

  /** Where a thread is in `pop` or `push`, and what it has read so far. A thread outside of both is in no map. */
  datatype Thread =
    | Popping
    | PopAt(seen: Head)
    | PopNext(seen: Head, next: Option<nat>)
    | Pushing(slot: nat)
    | PushAt(slot: nat, seen: Head)
    | PushNext(slot: nat, seen: Head)

  /** `next[i]` is the link of slot `i`. `held` are the slots in callers' hands, `returning` those being pushed. */
  datatype Pool = Pool(
    head: Head, next: seq<Option<nat>>, threads: map<nat, Thread>, held: multiset<nat>, returning: multiset<nat>)
  {
    function Go(t: nat, th: Thread): Pool {
      this.(threads := threads[t := th])
    }

    function Out(t: nat): Pool {
      this.(threads := threads - {t})
    }
  }

  datatype Step =
    | BeginPop(t: nat)
    | LoadForPop(t: nat)
    | LoadNext(t: nat)
    | SwingPop(t: nat, spurious: bool)
    | BeginPush(t: nat, slot: nat)
    | LoadForPush(t: nat)
    | StoreNext(t: nat)
    | SwingPush(t: nat, spurious: bool)

  predicate Within(link: Option<nat>, n: nat) {
    link.Some? ==> link.value < n
  }

  predicate ThreadWithin(th: Thread, n: nat) {
    match th
    case Popping => true
    case PopAt(seen) => seen.top.Some? && seen.top.value < n
    case PopNext(seen, next) => seen.top.Some? && seen.top.value < n && Within(next, n)
    case Pushing(slot) => slot < n
    case PushAt(slot, seen) => slot < n && Within(seen.top, n)
    case PushNext(slot, seen) => slot < n && Within(seen.top, n)
  }

  /** Every slot index anywhere is one of the pool's. */
  ghost predicate InBounds(p: Pool) {
    && Within(p.head.top, |p.next|)
    && (forall i :: 0 <= i < |p.next| ==> Within(p.next[i], |p.next|))
    && (forall t :: t in p.threads ==> ThreadWithin(p.threads[t], |p.next|))
    && (forall i :: i in p.held ==> i < |p.next|)
  }

  /** A thread does one thing at a time, and returns only what it holds. */
  ghost predicate Enabled(p: Pool, step: Step) {
    && InBounds(p)
    && match step
       case BeginPop(t) => t !in p.threads
       case LoadForPop(t) => t in p.threads && p.threads[t].Popping?
       case LoadNext(t) => t in p.threads && p.threads[t].PopAt?
       case SwingPop(t, _) => t in p.threads && p.threads[t].PopNext?
       case BeginPush(t, slot) => t !in p.threads && slot in p.held
       case LoadForPush(t) => t in p.threads && p.threads[t].Pushing?
       case StoreNext(t) => t in p.threads && p.threads[t].PushAt?
       case SwingPush(t, _) => t in p.threads && p.threads[t].PushNext?
  }

  /** The swap of a `pop` or `push` succeeds: the head is the word that was read, and no spurious failure. */
  predicate Swaps(p: Pool, seen: Head, spurious: bool) {
    !spurious && SameWord(p.head, seen)
  }

  /** A slot leaves the top for a caller's hands, and `link` becomes the top. */
  function Popped(p: Pool, slot: nat, link: Option<nat>): Pool {
    p.(head := Head(p.head.swings + 1, link), held := p.held + multiset{slot})
  }

  /** A slot on its way back becomes the top. */
  function Pushed(p: Pool, slot: nat): Pool {
    p.(head := Head(p.head.swings + 1, Some(slot)), returning := p.returning - multiset{slot})
  }

  function Stored(p: Pool, slot: nat, link: Option<nat>): Pool
    requires slot < |p.next|
  {
    p.(next := p.next[slot := link])
  }

  /** A caller gives a slot up. */
  function Taken(p: Pool, slot: nat): Pool {
    p.(held := p.held - multiset{slot}, returning := p.returning + multiset{slot})
  }

  ghost function Next(p: Pool, step: Step): Pool
    requires Enabled(p, step)
  {
    match step
    case BeginPop(t) => p.Go(t, Popping)
    case LoadForPop(t) => if p.head.top.None? then p.Out(t) else p.Go(t, PopAt(p.head))
    case LoadNext(t) => p.Go(t, PopNext(p.threads[t].seen, p.next[p.threads[t].seen.top.value]))
    case SwingPop(t, spurious) =>
      var th := p.threads[t];
      if Swaps(p, th.seen, spurious) then Popped(p.Out(t), th.seen.top.value, th.next) else p.Go(t, Popping)
    case BeginPush(t, slot) => Taken(p, slot).Go(t, Pushing(slot))
    case LoadForPush(t) => p.Go(t, PushAt(p.threads[t].slot, p.head))
    case StoreNext(t) =>
      var th := p.threads[t];
      Stored(p, th.slot, th.seen.top).Go(t, PushNext(th.slot, th.seen))
    case SwingPush(t, spurious) =>
      var th := p.threads[t];
      if Swaps(p, th.seen, spurious) then Pushed(p.Out(t), th.slot) else p.Go(t, Pushing(th.slot))
  }

  // ---------------------------------------------------------------------------
  // Each slot in one place
  // ---------------------------------------------------------------------------

  /** `free` lists the slots reached from `top` along the links. */
  predicate Linked(next: seq<Option<nat>>, top: Option<nat>, free: seq<nat>)
    decreases |free|
  {
    if free == [] then top == None
    else top == Some(free[0]) && free[0] < |next| && Linked(next, next[free[0]], free[1..])
  }

  /** Each of the pool's slots is once on the free list, in a caller's hands or on its way back. */
  ghost predicate Once(p: Pool, free: seq<nat>) {
    forall i: nat :: multiset(free)[i] + p.held[i] + p.returning[i] == if i < |p.next| then 1 else 0
  }

  ghost predicate Partition(p: Pool, free: seq<nat>) {
    Linked(p.next, p.head.top, free) && Once(p, free)
  }

  /** No slot is handed out twice, and none is lost. */
  ghost predicate Pooled(p: Pool) {
    exists free :: Partition(p, free)
  }

  lemma {:induction false} OneList(next: seq<Option<nat>>, top: Option<nat>, a: seq<nat>, b: seq<nat>)
    requires Linked(next, top, a) && Linked(next, top, b)
    ensures a == b
    decreases |a|
  {
    if a != [] && b != [] {
      OneList(next, next[a[0]], a[1..], b[1..]);
      assert a == [a[0]] + a[1..] && b == [b[0]] + b[1..];
    }
  }

  lemma {:induction false} SuffixLinked(next: seq<Option<nat>>, top: Option<nat>, free: seq<nat>, k: nat)
    requires Linked(next, top, free) && k < |free|
    ensures Linked(next, Some(free[k]), free[k..])
    decreases k
  {
    if k > 0 {
      SuffixLinked(next, next[free[0]], free[1..], k - 1);
      assert free[1..][k - 1..] == free[k..];
    } else {
      assert free[0..] == free;
    }
  }

  lemma {:induction false} LinkedUpdate(next: seq<Option<nat>>, top: Option<nat>, free: seq<nat>, i: nat, link: Option<nat>)
    requires Linked(next, top, free) && i < |next| && i !in free
    ensures Linked(next[i := link], top, free)
    decreases |free|
  {
    if free != [] {
      LinkedUpdate(next, next[free[0]], free[1..], i, link);
    }
  }

  // ---------------------------------------------------------------------------
  // What the threads know
  // ---------------------------------------------------------------------------

  /** A head that was read is the head still if the head did not swing since. */
  predicate Current(p: Pool, seen: Head) {
    seen.swings <= p.head.swings && (seen.swings == p.head.swings ==> seen.top == p.head.top)
  }

  predicate Knows(p: Pool, th: Thread)
    requires ThreadWithin(th, |p.next|)
  {
    match th
    case Popping => true
    case PopAt(seen) => Current(p, seen)
    case PopNext(seen, next) => Current(p, seen) && (seen.swings == p.head.swings ==> next == p.next[seen.top.value])
    case Pushing(slot) => true
    case PushAt(slot, seen) => Current(p, seen)
    case PushNext(slot, seen) => Current(p, seen) && p.next[slot] == seen.top
  }

  predicate Pushes(th: Thread) {
    th.Pushing? || th.PushAt? || th.PushNext?
  }

  /** Different threads push different slots, all of them on their way back. */
  ghost predicate PushersApart(p: Pool) {
    && (forall t :: t in p.threads && Pushes(p.threads[t]) ==> p.threads[t].slot in p.returning)
    && (forall t, u :: t in p.threads && u in p.threads && t != u && Pushes(p.threads[t]) && Pushes(p.threads[u]) ==>
          p.threads[t].slot != p.threads[u].slot)
  }

  ghost predicate ThreadsKnow(p: Pool)
    requires InBounds(p)
  {
    forall t :: t in p.threads ==> Knows(p, p.threads[t])
  }

  ghost predicate Sound(p: Pool) {
    InBounds(p) && Pooled(p) && ThreadsKnow(p) && PushersApart(p)
  }

  // ---------------------------------------------------------------------------
  // Exactly the steps that keep the pool
  // ---------------------------------------------------------------------------

  /** A `pop` swaps although the link it read is no longer the head's: the head has the tag and the top of back
      then again. */
  ghost predicate Stale(p: Pool, step: Step)
    requires Enabled(p, step)
  {
    && step.SwingPop?
    && var th := p.threads[step.t];
       Swaps(p, th.seen, step.spurious) && th.next != p.next[th.seen.top.value]
  }

  /** A thread goes on to `th`: that is kept when `th` is in bounds, knows nothing false, and pushes a slot that is
      on its way back and that no other thread pushes. */
  lemma GoKeeps(p: Pool, t: nat, th: Thread)
    requires Sound(p) && ThreadWithin(th, |p.next|) && Knows(p, th)
    requires Pushes(th) ==>
               && th.slot in p.returning
               && forall u :: u in p.threads && u != t && Pushes(p.threads[u]) ==> p.threads[u].slot != th.slot
    ensures Sound(p.Go(t, th))
  {
    hide ThreadWithin, Knows, Linked, Once;
    var free: seq<nat> :| Partition(p, free);
    var q := p.Go(t, th);
    SameLists(p, q, free);
    assert InBounds(q);
    SameKnowledge(p, q, th);
    assert forall u :: u in q.threads ==> Knows(q, q.threads[u]) by {
      forall u | u in q.threads
        ensures Knows(q, q.threads[u])
      {
        SameKnowledge(p, q, q.threads[u]);
      }
    }
  }

  lemma OutKeeps(p: Pool, t: nat)
    requires Sound(p)
    ensures Sound(p.Out(t))
  {
    hide ThreadWithin, Knows, Linked, Once;
    var free: seq<nat> :| Partition(p, free);
    var q := p.Out(t);
    SameLists(p, q, free);
    assert InBounds(q);
    assert forall u :: u in q.threads ==> Knows(q, q.threads[u]) by {
      forall u | u in q.threads
        ensures Knows(q, q.threads[u])
      {
        SameKnowledge(p, q, q.threads[u]);
      }
    }
  }

  lemma SameLists(p: Pool, q: Pool, free: seq<nat>)
    requires Partition(p, free)
    requires q.head == p.head && q.next == p.next && q.held == p.held && q.returning == p.returning
    ensures Partition(q, free)
  {
  }

  lemma SameKnowledge(p: Pool, q: Pool, th: Thread)
    requires ThreadWithin(th, |p.next|) && q.head == p.head && q.next == p.next
    ensures Knows(q, th) <==> Knows(p, th)
  {
  }

  /** When the head swings, what threads knew of it is no longer of now. */
  lemma SwungKnowledge(p: Pool, q: Pool, th: Thread)
    requires ThreadWithin(th, |p.next|) && Knows(p, th) && q.head.swings == p.head.swings + 1 && q.next == p.next
    ensures Knows(q, th)
  {
  }

  lemma SwingKeepsThreads(p: Pool, q: Pool)
    requires Sound(p) && InBounds(q) && q.head.swings == p.head.swings + 1 && q.next == p.next && q.threads == p.threads
    ensures ThreadsKnow(q)
  {
    hide ThreadWithin, Knows;
    forall u | u in q.threads
      ensures Knows(q, q.threads[u])
    {
      SwungKnowledge(p, q, q.threads[u]);
    }
  }

  lemma PoppedPartition(p: Pool, free: seq<nat>)
    requires Partition(p, free) && p.head.top.Some?
    ensures p.head.top.value < |p.next| && free != []
    ensures Partition(Popped(p, p.head.top.value, p.next[p.head.top.value]), free[1..])
  {
    assert free == [free[0]] + free[1..];
    assert multiset(free) == multiset{free[0]} + multiset(free[1..]);
  }

  lemma PoppedKeeps(p: Pool)
    requires Sound(p) && p.head.top.Some? && p.head.top.value < |p.next|
    ensures Sound(Popped(p, p.head.top.value, p.next[p.head.top.value]))
  {
    hide ThreadWithin, Knows, Linked, Once, Partition;
    var free: seq<nat> :| Partition(p, free);
    PoppedPartition(p, free);
    SwingKeepsThreads(p, Popped(p, p.head.top.value, p.next[p.head.top.value]));
  }

  lemma PushedPartition(p: Pool, free: seq<nat>, slot: nat)
    requires Partition(p, free) && slot in p.returning && slot < |p.next| && p.next[slot] == p.head.top
    ensures Partition(Pushed(p, slot), [slot] + free)
  {
    assert ([slot] + free)[1..] == free;
    assert multiset([slot] + free) == multiset{slot} + multiset(free);
  }

  lemma PushedKeeps(p: Pool, slot: nat)
    requires Sound(p) && slot in p.returning && slot < |p.next| && p.next[slot] == p.head.top
    requires forall u :: u in p.threads && Pushes(p.threads[u]) ==> p.threads[u].slot != slot
    ensures Sound(Pushed(p, slot))
  {
    hide ThreadWithin, Knows, Linked, Once, Partition;
    var free: seq<nat> :| Partition(p, free);
    PushedPartition(p, free, slot);
    SwingKeepsThreads(p, Pushed(p, slot));
  }

  lemma FreeIsNotReturning(p: Pool, free: seq<nat>, slot: nat)
    requires Partition(p, free) && slot in p.returning && slot < |p.next|
    ensures slot !in free && p.head.top != Some(slot)
  {
    assert multiset(free)[slot] == 0;
  }

  lemma StoredKeeps(p: Pool, slot: nat, link: Option<nat>)
    requires Sound(p) && slot in p.returning && slot < |p.next| && Within(link, |p.next|)
    requires forall u :: u in p.threads && p.threads[u].PushNext? ==> p.threads[u].slot != slot
    ensures Sound(Stored(p, slot, link))
  {
    hide Linked, Once;
    var free: seq<nat> :| Partition(p, free);
    FreeIsNotReturning(p, free, slot);
    LinkedUpdate(p.next, p.head.top, free, slot, link);
    SameCounts(p, Stored(p, slot, link), free);
    assert Partition(Stored(p, slot, link), free);
  }

  lemma SameCounts(p: Pool, q: Pool, free: seq<nat>)
    requires Once(p, free) && q.held == p.held && q.returning == p.returning && |q.next| == |p.next|
    ensures Once(q, free)
  {
  }

  /** A caller gives a slot up; nobody is pushing it yet. */
  lemma TakenKeeps(p: Pool, slot: nat)
    requires Sound(p) && slot in p.held
    ensures Sound(Taken(p, slot)) && slot in Taken(p, slot).returning && slot < |p.next|
    ensures forall u :: u in p.threads && Pushes(p.threads[u]) ==> p.threads[u].slot != slot
  {
    hide ThreadWithin, Knows, Linked;
    var free: seq<nat> :| Partition(p, free);
    HeldIsNotReturning(p, free, slot);
    assert Once(Taken(p, slot), free);
    assert Partition(Taken(p, slot), free);
    forall u | u in p.threads
      ensures Knows(Taken(p, slot), p.threads[u])
    {
      SameKnowledge(p, Taken(p, slot), p.threads[u]);
    }
  }

  lemma HeldIsNotReturning(p: Pool, free: seq<nat>, slot: nat)
    requires Once(p, free) && slot in p.held
    ensures slot !in p.returning && slot < |p.next|
  {
    assert p.held[slot] >= 1;
    assert p.returning[slot] == 0;
  }

  // ---------------------------------------------------------------------------
  // The steps
  // ---------------------------------------------------------------------------

  /** What a thread knows when the head is still what it read. */
  lemma Reading(p: Pool, t: nat)
    requires Sound(p) && t in p.threads
    ensures ThreadWithin(p.threads[t], |p.next|) && Knows(p, p.threads[t])
    ensures Pushes(p.threads[t]) ==>
              && p.threads[t].slot in p.returning && p.threads[t].slot < |p.next|
              && forall u :: u in p.threads && u != t && Pushes(p.threads[u]) ==> p.threads[u].slot != p.threads[t].slot
  {
  }

  lemma SoundBounds(p: Pool)
    requires Sound(p)
    ensures Within(p.head.top, |p.next|) && forall i :: 0 <= i < |p.next| ==> Within(p.next[i], |p.next|)
  {
  }

  /** Every step but a store and a successful swing changes only where one thread is. */
  lemma QuietKeeps(p: Pool, step: Step)
    requires Sound(p) && Enabled(p, step)
    requires step.BeginPop? || step.LoadForPop? || step.LoadNext? || step.LoadForPush? ||
             (step.SwingPop? && !Swaps(p, p.threads[step.t].seen, step.spurious)) ||
             (step.SwingPush? && !Swaps(p, p.threads[step.t].seen, step.spurious))
    ensures Sound(Next(p, step))
  {
    hide Sound, InBounds;
    SoundBounds(p);
    if step.BeginPop? {
      GoKeeps(p, step.t, Popping);
    } else {
      Reading(p, step.t);
      if step.LoadForPop? && p.head.top.None? {
        OutKeeps(p, step.t);
      } else {
        GoKeeps(p, step.t, Next(p, step).threads[step.t]);
      }
    }
  }

  lemma BeginPushKeeps(p: Pool, t: nat, slot: nat)
    requires Sound(p) && Enabled(p, BeginPush(t, slot))
    ensures Sound(Next(p, BeginPush(t, slot)))
  {
    hide Sound, InBounds;
    TakenKeeps(p, slot);
    GoKeeps(Taken(p, slot), t, Pushing(slot));
  }

  lemma StoreKeeps(p: Pool, t: nat)
    requires Sound(p) && Enabled(p, StoreNext(t))
    ensures Sound(Next(p, StoreNext(t)))
  {
    hide Sound, InBounds;
    Reading(p, t);
    var slot, seen := p.threads[t].slot, p.threads[t].seen;
    StoredKeeps(p, slot, seen.top);
    GoKeeps(Stored(p, slot, seen.top), t, PushNext(slot, seen));
  }

  lemma SwingPushKeeps(p: Pool, t: nat)
    requires Sound(p) && Enabled(p, SwingPush(t, false)) && Swaps(p, p.threads[t].seen, false)
    ensures Sound(Next(p, SwingPush(t, false)))
  {
    hide Sound, InBounds;
    Reading(p, t);
    OutKeeps(p, t);
    PushedKeeps(p.Out(t), p.threads[t].slot);
  }

  lemma SwingPopKeeps(p: Pool, t: nat)
    requires Sound(p) && Enabled(p, SwingPop(t, false)) && Swaps(p, p.threads[t].seen, false) && !Stale(p, SwingPop(t, false))
    ensures Sound(Next(p, SwingPop(t, false)))
  {
    hide Sound, InBounds;
    Reading(p, t);
    OutKeeps(p, t);
    PoppedKeeps(p.Out(t));
  }

  /** A `pop` that swaps in another link than the head's leaves a list that cannot be the rest of the free list:
      a slot is lost, or on the list although it is not free. */
  lemma WrongLinkBreaks(p: Pool, free: seq<nat>, link: Option<nat>, left: seq<nat>)
    requires Partition(p, free) && p.head.top.Some? && p.head.top.value < |p.next| && link != p.next[p.head.top.value]
    ensures !Partition(Popped(p, p.head.top.value, link), left)
  {
    if Partition(Popped(p, p.head.top.value, link), left) {
      SameRest(p, free, link, left);
      var rest := free[1..];
      SameSlots(left, rest);
      assert Linked(p.next, p.next[free[0]], rest);
      if left != [] {
        assert left[0] in multiset(rest);
        var k :| 0 <= k < |rest| && rest[k] == left[0];
        SuffixLinked(p.next, p.next[free[0]], rest, k);
        OneList(p.next, Some(rest[k]), left, rest[k..]);
      }
    }
  }

  lemma SameRest(p: Pool, free: seq<nat>, link: Option<nat>, left: seq<nat>)
    requires Partition(p, free) && p.head.top.Some? && Once(Popped(p, p.head.top.value, link), left)
    ensures free != [] && multiset(left) == multiset(free[1..])
  {
    assert free == [free[0]] + free[1..];
    assert multiset(free) == multiset{free[0]} + multiset(free[1..]);
    forall i: nat
      ensures multiset(left)[i] == multiset(free[1..])[i]
    {
      assert multiset(left)[i] + p.held[i] + multiset{free[0]}[i] + p.returning[i] == multiset(free)[i] + p.held[i] + p.returning[i];
    }
  }

  lemma StaleBreaks(p: Pool, t: nat)
    requires Sound(p) && Enabled(p, SwingPop(t, false)) && Stale(p, SwingPop(t, false))
    ensures !Pooled(Next(p, SwingPop(t, false)))
  {
    hide Linked, Once;
    var free: seq<nat> :| Partition(p, free);
    var q := Next(p, SwingPop(t, false));
    var link := p.threads[t].next;
    forall left
      ensures !Partition(q, left)
    {
      WrongLinkBreaks(p, free, link, left);
      if Partition(q, left) {
        SameLists(q, Popped(p, p.head.top.value, link), left);
      }
    }
  }

  lemma SameSlots(a: seq<nat>, b: seq<nat>)
    requires multiset(a) == multiset(b)
    ensures |a| == |b|
  {
    assert |multiset(a)| == |a| && |multiset(b)| == |b|;
  }

  /** A step keeps the pool exactly when it is not a stale swap. */
  lemma StepKeepsPool(p: Pool, step: Step)
    requires Sound(p) && Enabled(p, step)
    ensures Pooled(Next(p, step)) <==> !Stale(p, step)
    ensures Sound(Next(p, step)) <==> !Stale(p, step)
  {
    hide Sound, Pooled, InBounds, Next;
    SoundIsPooled(Next(p, step));
    match step
    case SwingPop(t, spurious) =>
      if !Swaps(p, p.threads[t].seen, spurious) {
        QuietKeeps(p, step);
      } else if Stale(p, step) {
        StaleBreaks(p, t);
      } else {
        SwingPopKeeps(p, t);
      }
    case SwingPush(t, spurious) =>
      if Swaps(p, p.threads[t].seen, spurious) {
        SwingPushKeeps(p, t);
      } else {
        QuietKeeps(p, step);
      }
    case BeginPush(t, slot) => BeginPushKeeps(p, t, slot);
    case StoreNext(t) => StoreKeeps(p, t);
    case _ => QuietKeeps(p, step);
  }

  lemma SoundIsPooled(p: Pool)
    ensures Sound(p) ==> Pooled(p)
  {
  }

  /** A swap is stale only after the tag has come round: some positive multiple of 2^32 swings of the head since
      the thread read it. */
  lemma StaleHasComeRound(p: Pool, step: Step)
    requires Sound(p) && Enabled(p, step) && Stale(p, step)
    ensures var swings := p.head.swings - p.threads[step.t].seen.swings; swings >= 0x1_0000_0000 && swings % 0x1_0000_0000 == 0
  {
    var read, now := p.threads[step.t].seen.swings, p.head.swings;
    assert Knows(p, p.threads[step.t]);
    SameTag(read, now);
  }

  lemma SameTag(read: nat, now: nat)
    requires read <= now && read % TAGS == now % TAGS
    ensures (now - read) % TAGS == 0 && (read == now || now - read >= TAGS)
  {
    assert now - read == (now / TAGS - read / TAGS) * TAGS;
  }

  // ---------------------------------------------------------------------------
  // Bounds
  // ---------------------------------------------------------------------------

  lemma GoBounds(p: Pool, t: nat, th: Thread)
    requires InBounds(p) && ThreadWithin(th, |p.next|)
    ensures InBounds(p.Go(t, th))
  {
    hide ThreadWithin;
  }

  lemma OutBounds(p: Pool, t: nat)
    requires InBounds(p)
    ensures InBounds(p.Out(t))
  {
    hide ThreadWithin;
  }

  lemma MovedBounds(p: Pool, link: Option<nat>, slot: nat)
    requires InBounds(p) && Within(link, |p.next|) && slot < |p.next|
    ensures InBounds(Popped(p, slot, link))
    ensures InBounds(Pushed(p, slot)) && InBounds(Stored(p, slot, link)) && InBounds(Taken(p, slot))
  {
    hide ThreadWithin;
  }

  /** Whatever the threads do, even after a stale swap, no index leaves the slot array. */
  lemma StaysInBounds(p: Pool, step: Step)
    requires Enabled(p, step)
    ensures InBounds(Next(p, step)) && |Next(p, step).next| == |p.next|
  {
    KnownBounds(p, step);
    hide InBounds;
    match step
    case SwingPop(t, _) => SwingBounds(p, t, p.threads[t].seen.top.value, p.threads[t].next);
    case BeginPush(t, slot) =>
      MovedBounds(p, None, slot);
      GoBounds(Taken(p, slot), t, Pushing(slot));
    case StoreNext(t) => StoreBounds(p, t);
    case SwingPush(t, _) => SwingBounds(p, t, p.threads[t].slot, None);
    case BeginPop(t) => GoBounds(p, t, Popping);
    case LoadForPop(t) =>
      OutBounds(p, t);
      if p.head.top.Some? { GoBounds(p, t, PopAt(p.head)); }
    case LoadNext(t) => GoBounds(p, t, Next(p, step).threads[t]);
    case LoadForPush(t) => GoBounds(p, t, Next(p, step).threads[t]);
  }

  lemma SwingBounds(p: Pool, t: nat, slot: nat, link: Option<nat>)
    requires InBounds(p) && slot < |p.next| && Within(link, |p.next|)
    ensures InBounds(Popped(p.Out(t), slot, link)) && InBounds(Pushed(p.Out(t), slot))
    ensures InBounds(p.Go(t, Popping)) && InBounds(p.Go(t, Pushing(slot)))
  {
    hide InBounds;
    OutBounds(p, t);
    MovedBounds(p.Out(t), link, slot);
    GoBounds(p, t, Popping);
    GoBounds(p, t, Pushing(slot));
  }

  lemma StoreBounds(p: Pool, t: nat)
    requires Enabled(p, StoreNext(t))
    ensures InBounds(Next(p, StoreNext(t)))
  {
    KnownBounds(p, StoreNext(t));
    hide InBounds;
    var th := p.threads[t];
    MovedBounds(p, th.seen.top, th.slot);
    GoBounds(Stored(p, th.slot, th.seen.top), t, PushNext(th.slot, th.seen));
  }

  lemma KnownBounds(p: Pool, step: Step)
    requires Enabled(p, step)
    ensures Within(p.head.top, |p.next|) && (forall i :: 0 <= i < |p.next| ==> Within(p.next[i], |p.next|))
    ensures step.BeginPush? ==> step.slot < |p.next|
    ensures step.t in p.threads ==> ThreadWithin(p.threads[step.t], |p.next|)
  {
  }

  // ---------------------------------------------------------------------------
  // Runs
  // ---------------------------------------------------------------------------

  ghost predicate Feasible(p: Pool, steps: seq<Step>)
    decreases |steps|
  {
    steps != [] ==> Enabled(p, steps[0]) && Feasible(Next(p, steps[0]), steps[1..])
  }

  ghost function Run(p: Pool, steps: seq<Step>): Pool
    requires Feasible(p, steps)
    decreases |steps|
  {
    if steps == [] then p else Run(Next(p, steps[0]), steps[1..])
  }

  /** Before every step of the run and after the last. */
  ghost predicate PooledThroughout(p: Pool, steps: seq<Step>)
    requires Feasible(p, steps)
    decreases |steps|
  {
    Pooled(p) && (steps != [] ==> PooledThroughout(Next(p, steps[0]), steps[1..]))
  }

  ghost predicate NeverStale(p: Pool, steps: seq<Step>)
    requires Feasible(p, steps)
    decreases |steps|
  {
    steps != [] ==> !Stale(p, steps[0]) && NeverStale(Next(p, steps[0]), steps[1..])
  }

  /** No `pop` swaps after it was parked for 2^32 swings of the head or more. */
  ghost predicate Timely(p: Pool, steps: seq<Step>)
    requires Feasible(p, steps)
    decreases |steps|
  {
    steps != [] ==>
      && (steps[0].SwingPop? ==> p.head.swings - p.threads[steps[0].t].seen.swings < 0x1_0000_0000)
      && Timely(Next(p, steps[0]), steps[1..])
  }

  /** However many threads pop and push in whatever order: at every moment each slot is on the free list, held or
      on its way back, once, as long as no swap is stale, and only so long. */
  lemma {:induction false} RunKeepsPool(p: Pool, steps: seq<Step>)
    requires Sound(p) && Feasible(p, steps)
    ensures PooledThroughout(p, steps) <==> NeverStale(p, steps)
    ensures NeverStale(p, steps) ==> Sound(Run(p, steps))
    decreases |steps|
  {
    hide Sound, Pooled, InBounds, Next, Stale, Enabled;
    SoundIsPooled(p);
    if steps != [] {
      StepKeepsPool(p, steps[0]);
      if !Stale(p, steps[0]) {
        RunKeepsPool(Next(p, steps[0]), steps[1..]);
      } else {
        NotPooledThroughout(Next(p, steps[0]), steps[1..]);
      }
    }
  }

  lemma NotPooledThroughout(p: Pool, steps: seq<Step>)
    requires Feasible(p, steps) && !Pooled(p)
    ensures !PooledThroughout(p, steps)
  {
  }

  lemma {:induction false} TimelyIsNeverStale(p: Pool, steps: seq<Step>)
    requires Sound(p) && Feasible(p, steps) && Timely(p, steps)
    ensures NeverStale(p, steps)
    decreases |steps|
  {
    hide Sound, Pooled, InBounds, Next;
    if steps != [] {
      StepKeepsPool(p, steps[0]);
      if Stale(p, steps[0]) {
        StaleHasComeRound(p, steps[0]);
      }
      TimelyIsNeverStale(Next(p, steps[0]), steps[1..]);
    }
  }

  /** The links of a pre-allocated tier from slot `lo` on. */
  function Links(lo: nat, n: nat): (links: seq<Option<nat>>)
    requires lo <= n
    ensures |links| == n - lo
    ensures forall i :: 0 <= i < n - lo ==> links[i] == if lo + i + 1 < n then Some(lo + i + 1) else None
    decreases n - lo
  {
    if lo == n then [] else [if lo + 1 < n then Some(lo + 1) else None] + Links(lo + 1, n)
  }

  function New(n: nat): Pool {
    Pool(Head(0, if n > 0 then Some(0) else None), Links(0, n), map[], multiset{}, multiset{})
  }

  function From(lo: nat, n: nat): (slots: seq<nat>)
    requires lo <= n
    ensures forall i: nat :: multiset(slots)[i] == if lo <= i < n then 1 else 0
    decreases n - lo
  {
    if lo == n then [] else [lo] + From(lo + 1, n)
  }

  lemma {:induction false} NewLinked(lo: nat, n: nat)
    requires lo <= n
    ensures Linked(Links(0, n), if lo < n then Some(lo) else None, From(lo, n))
    decreases n - lo
  {
    if lo < n {
      NewLinked(lo + 1, n);
    }
  }

  lemma NewIsSound(n: nat)
    ensures Sound(New(n))
  {
    NewLinked(0, n);
    assert Partition(New(n), From(0, n));
  }

  /** From start-up on, over every interleaving: no slot is handed out twice and none is lost, if no `pop` is
      parked for 2^32 swings. */
  lemma PoolIsSafe(n: nat, steps: seq<Step>)
    requires Feasible(New(n), steps) && Timely(New(n), steps)
    ensures PooledThroughout(New(n), steps)
  {
    NewIsSound(n);
    TimelyIsNeverStale(New(n), steps);
    RunKeepsPool(New(n), steps);
  }

  /** A `pop` finds the list empty only when every slot is out. */
  lemma EmptyMeansAllOut(p: Pool)
    requires Pooled(p)
    ensures p.head.top == None <==> forall i: nat :: i < |p.next| ==> i in p.held || i in p.returning
  {
    var free: seq<nat> :| Partition(p, free);
    if p.head.top.Some? {
      assert multiset(free)[free[0]] >= 1;
      assert p.held[free[0]] == 0 && p.returning[free[0]] == 0;
    } else {
      forall i: nat | i < |p.next|
        ensures i in p.held || i in p.returning
      {
        assert multiset(free)[i] == 0;
      }
    }
  }

  // ---------------------------------------------------------------------------
  // The tag comes round
  // ---------------------------------------------------------------------------

  function PopSteps(t: nat): seq<Step> {
    [BeginPop(t), LoadForPop(t), LoadNext(t), SwingPop(t, false)]
  }

  function PushSteps(t: nat, slot: nat): seq<Step> {
    [BeginPush(t, slot), LoadForPush(t), StoreNext(t), SwingPush(t, false)]
  }

  /** `steps` is a run from `p` to `q`. */
  ghost predicate Leads(p: Pool, steps: seq<Step>, q: Pool) {
    Feasible(p, steps) && Run(p, steps) == q
  }

  lemma Stays(p: Pool)
    ensures Leads(p, [], p)
  {
  }

  lemma LeadsFirst(p: Pool, step: Step, rest: seq<Step>, q: Pool)
    requires Enabled(p, step) && Leads(Next(p, step), rest, q)
    ensures Leads(p, [step] + rest, q)
  {
    assert ([step] + rest)[1..] == rest;
  }

  lemma {:induction false} LeadsOn(p: Pool, a: seq<Step>, q: Pool, b: seq<Step>, r: Pool)
    requires Leads(p, a, q) && Leads(q, b, r)
    ensures Leads(p, a + b, r)
    decreases |a|
  {
    hide Next, Enabled;
    if a == [] {
      assert a + b == b;
    } else {
      LeadsOn(Next(p, a[0]), a[1..], q, b, r);
      assert a + b == [a[0]] + (a[1..] + b);
      LeadsFirst(p, a[0], a[1..] + b, r);
    }
  }

  lemma FourSteps(p: Pool, a: Step, b: Step, c: Step, d: Step)
    requires Enabled(p, a) && Enabled(Next(p, a), b) && Enabled(Next(Next(p, a), b), c) && Enabled(Next(Next(Next(p, a), b), c), d)
    ensures Leads(p, [a, b, c, d], Next(Next(Next(Next(p, a), b), c), d))
  {
    hide Next, Enabled;
    ThreeSteps(Next(p, a), b, c, d);
    LeadsFirst(p, a, [b, c, d], Next(Next(Next(Next(p, a), b), c), d));
    assert [a] + [b, c, d] == [a, b, c, d];
  }

  /** A thread that nobody disturbs pops the top. */
  lemma PopAlone(p: Pool, t: nat)
    requires InBounds(p) && t !in p.threads && p.head.top.Some? && p.head.top.value < |p.next|
    ensures var q := Popped(p, p.head.top.value, p.next[p.head.top.value]); Leads(p, PopSteps(t), q) && InBounds(q)
  {
    hide InBounds;
    var q := Popped(p, p.head.top.value, p.next[p.head.top.value]);
    StaysInBounds(p, BeginPop(t));
    StaysInBounds(p.Go(t, Popping), LoadForPop(t));
    assert p.Go(t, Popping).Go(t, PopAt(p.head)) == p.Go(t, PopAt(p.head));
    StaysInBounds(p.Go(t, PopAt(p.head)), LoadNext(t));
    var ready := PopNext(p.head, p.next[p.head.top.value]);
    assert p.Go(t, PopAt(p.head)).Go(t, ready) == p.Go(t, ready);
    StaysInBounds(p.Go(t, ready), SwingPop(t, false));
    assert p.Go(t, ready).Out(t) == p;
    assert Next(p.Go(t, ready), SwingPop(t, false)) == q;
    FourSteps(p, BeginPop(t), LoadForPop(t), LoadNext(t), SwingPop(t, false));
  }

  function Returned(p: Pool, slot: nat): Pool
    requires slot < |p.next|
  {
    p.(head := Head(p.head.swings + 1, Some(slot)), next := p.next[slot := p.head.top], held := p.held - multiset{slot})
  }

  /** And pushes a slot it holds. */
  lemma PushAlone(p: Pool, t: nat, slot: nat)
    requires InBounds(p) && t !in p.threads && slot in p.held && slot < |p.next|
    ensures Leads(p, PushSteps(t, slot), Returned(p, slot)) && InBounds(Returned(p, slot))
  {
    hide InBounds;
    var p0 := Taken(p, slot);
    StaysInBounds(p, BeginPush(t, slot));
    var p1 := p0.Go(t, Pushing(slot));
    StaysInBounds(p1, LoadForPush(t));
    var p2 := p0.Go(t, PushAt(slot, p.head));
    assert p1.Go(t, PushAt(slot, p.head)) == p2;
    StaysInBounds(p2, StoreNext(t));
    var p3 := Stored(p0, slot, p.head.top).Go(t, PushNext(slot, p.head));
    assert Stored(p2, slot, p.head.top).Go(t, PushNext(slot, p.head)) == p3;
    StaysInBounds(p3, SwingPush(t, false));
    PushEnds(p, t, slot);
    FourSteps(p, BeginPush(t, slot), LoadForPush(t), StoreNext(t), SwingPush(t, false));
  }

  lemma PushEnds(p: Pool, t: nat, slot: nat)
    requires t !in p.threads && slot < |p.next|
    ensures Pushed(Stored(Taken(p, slot), slot, p.head.top).Go(t, PushNext(slot, p.head)).Out(t), slot) == Returned(p, slot)
  {
    var q := Stored(Taken(p, slot), slot, p.head.top).Go(t, PushNext(slot, p.head)).Out(t);
    assert q.threads == p.threads && q.returning - multiset{slot} == p.returning;
  }

  /** The top popped and pushed back, again and again. */
  function Cycles(t: nat, slot: nat, m: nat): seq<Step> {
    if m == 0 then [] else PopSteps(t) + PushSteps(t, slot) + Cycles(t, slot, m - 1)
  }

  function Swung(p: Pool, swings: nat): Pool {
    p.(head := Head(p.head.swings + swings, p.head.top))
  }

  lemma {:induction false} CyclesSwing(p: Pool, t: nat, slot: nat, m: nat)
    requires InBounds(p) && t !in p.threads && p.head.top == Some(slot) && slot < |p.next|
    ensures Leads(p, Cycles(t, slot, m), Swung(p, 2 * m)) && InBounds(Swung(p, 2 * m))
    decreases m
  {
    hide InBounds, Leads;
    if m == 0 {
      Stays(p);
    } else {
      var q := Popped(p, slot, p.next[slot]);
      PopAlone(p, t);
      PushAlone(q, t, slot);
      var r := Returned(q, slot);
      assert r.next == p.next && r.held == p.held;
      assert r == Swung(p, 2);
      CyclesSwing(r, t, slot, m - 1);
      LeadsOn(p, PopSteps(t), q, PushSteps(t, slot), r);
      LeadsOn(p, PopSteps(t) + PushSteps(t, slot), r, Cycles(t, slot, m - 1), Swung(r, 2 * (m - 1)));
    }
  }

  /** A pool of four slots in which one thread has read the head and its link in a `pop`. */
  function Parked(): Pool {
    New(4).(threads := map[0 := PopNext(Head(0, Some(0)), Some(1))])
  }

  lemma ParkedIsReached()
    ensures Leads(New(4), [BeginPop(0), LoadForPop(0), LoadNext(0)], Parked()) && InBounds(Parked())
  {
    NewIsSound(4);
    SoundInBounds(New(4));
    hide InBounds, Links, Sound;
    LinksOfFour();
    var p := New(4);
    StaysInBounds(p, BeginPop(0));
    var p1 := p.Go(0, Popping);
    StaysInBounds(p1, LoadForPop(0));
    var p2 := p.Go(0, PopAt(p.head));
    assert p1.Go(0, PopAt(p.head)) == p2;
    StaysInBounds(p2, LoadNext(0));
    assert p2.Go(0, PopNext(p.head, Some(1))) == Parked();
    ThreeSteps(p, BeginPop(0), LoadForPop(0), LoadNext(0));
  }

  lemma ThreeSteps(p: Pool, a: Step, b: Step, c: Step)
    requires Enabled(p, a) && Enabled(Next(p, a), b) && Enabled(Next(Next(p, a), b), c)
    ensures Leads(p, [a, b, c], Next(Next(Next(p, a), b), c))
  {
    hide Next, Enabled;
    var p1, p2 := Next(p, a), Next(Next(p, a), b);
    Stays(Next(p2, c));
    LeadsFirst(p2, c, [], Next(p2, c));
    LeadsFirst(p1, b, [c], Next(p2, c));
    LeadsFirst(p, a, [b, c], Next(p2, c));
    assert [a] + [b, c] == [a, b, c] && [b] + [c] == [b, c] && [c] + [] == [c];
  }

  lemma SoundInBounds(p: Pool)
    requires Sound(p)
    ensures InBounds(p)
  {
  }

  /** Slots 1 and 2 are held; slot 0 is the top again, now with slot 3 below it. */
  function Recycled(): Pool {
    Parked().(head := Head(4, Some(0)), next := [Some(3), Some(2), Some(3), None], held := multiset{1, 2})
  }

  lemma RecycledIsReached()
    ensures Leads(Parked(), PopSteps(1) + PopSteps(1) + PopSteps(1) + PushSteps(1, 0), Recycled()) && InBounds(Recycled())
  {
    ParkedIsReached();
    hide InBounds, Leads, Links;
    LinksOfFour();
    var p0 := Parked();
    PopAlone(p0, 1);
    var p1 := Popped(p0, 0, Some(1));
    PopAlone(p1, 1);
    var p2 := Popped(p1, 1, Some(2));
    PopAlone(p2, 1);
    var p3 := Popped(p2, 2, Some(3));
    PushAlone(p3, 1, 0);
    assert Returned(p3, 0).next == Recycled().next && Returned(p3, 0).held == multiset{1, 2};
    LeadsOn(p0, PopSteps(1), p1, PopSteps(1), p2);
    LeadsOn(p0, PopSteps(1) + PopSteps(1), p2, PopSteps(1), p3);
    LeadsOn(p0, PopSteps(1) + PopSteps(1) + PopSteps(1), p3, PushSteps(1, 0), Recycled());
  }

  lemma LinksOfFour()
    ensures Links(0, 4) == [Some(1), Some(2), Some(3), None]
  {
  }

  /** What the condition excludes: the parked `pop` swaps once 2^32 swings have brought the tag round, and the
      slot it makes the top is handed out a second time. */
  lemma ParkedPopHandsOutTwice() returns (steps: seq<Step>, end: Pool)
    ensures Leads(New(4), steps, end) && end.held[1] == 2 && !Pooled(end)
  {
    ParkedIsReached();
    RecycledIsReached();
    hide InBounds, Leads;
    var m := (TAGS - 4) / 2;
    var p := Swung(Recycled(), 2 * m);
    CyclesSwing(Recycled(), 1, 0, m);
    var q := Next(p, SwingPop(0, false));
    StaysInBounds(p, SwingPop(0, false));
    Stays(q);
    LeadsFirst(p, SwingPop(0, false), [], q);
    assert q.head == Head(TAGS + 1, Some(1)) && q.held == multiset{0, 1, 2} && q.threads == map[];
    PopAlone(q, 1);
    end := Popped(q, 1, Some(2));
    var start := [BeginPop(0), LoadForPop(0), LoadNext(0)];
    var recycle := PopSteps(1) + PopSteps(1) + PopSteps(1) + PushSteps(1, 0);
    LeadsOn(New(4), start, Parked(), recycle, Recycled());
    LeadsOn(New(4), start + recycle, Recycled(), Cycles(1, 0, m), p);
    LeadsOn(New(4), start + recycle + Cycles(1, 0, m), p, [SwingPop(0, false)] + [], q);
    LeadsOn(New(4), start + recycle + Cycles(1, 0, m) + ([SwingPop(0, false)] + []), q, PopSteps(1), end);
    steps := start + recycle + Cycles(1, 0, m) + ([SwingPop(0, false)] + []) + PopSteps(1);
    HeldTwice(end, 1);
  }

  lemma HeldTwice(p: Pool, slot: nat)
    requires p.held[slot] == 2
    ensures !Pooled(p)
  {
    forall free: seq<nat>
      ensures !Once(p, free)
    {
      assert multiset(free)[slot] + p.held[slot] + p.returning[slot] >= 2;
    }
  }

  // ---------------------------------------------------------------------------
  // What a request gets
  // ---------------------------------------------------------------------------

  /** The capacity of the buffer `BufferPoolSet::allocate` finds for a request: a pooled one has its tier's, one
      from the system allocator what was asked for, if that is more. */
  function Obtained(tier: Pool, requested: nat): nat {
    if tier.head.top.Some? then TierSize(requested)
    else if TierSize(requested) < requested then requested else TierSize(requested)
  }

  /** The slots a tier starts with. */
  function Preallocated(poolSize: nat, preallocate: bool): nat {
    if preallocate then poolSize else 0
  }

  /** The capacity the manager records is there, exactly unless the request is past the largest tier and that
      tier has a pooled buffer. */
  lemma RecordedIsThere(tier: Pool, requested: nat)
    ensures TierCapacity(requested) <= Obtained(tier, requested) <==> !(requested > 1024 * 1024 && tier.head.top.Some?)
  {
  }

  /** So of the largest tier's configurations exactly those that pre-allocate nothing are right for every request;
      the default is one of them. */
  lemma RightConfigurations(poolSize: nat, preallocate: bool)
    ensures (forall tier: Pool, requested: nat ::
               InBounds(tier) && |tier.next| == Preallocated(poolSize, preallocate) && requested <= MAX_BUFFER_SIZE ==>
                 TierCapacity(requested) <= Obtained(tier, requested)) <==>
            !preallocate || poolSize == 0
  {
    var n := Preallocated(poolSize, preallocate);
    if n > 0 {
      NewIsSound(n);
      SoundInBounds(New(n));
      TwoMebibytes(n);
    }
  }

  /** A request of two mebibytes gets one. */
  lemma TwoMebibytes(n: nat)
    requires n > 0
    ensures TierCapacity(2 * HUGE) == 2 * HUGE && Obtained(New(n), 2 * HUGE) == HUGE
  {
  }
}
