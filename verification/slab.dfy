/** The generational slab of `torvyn-resources/src/table.rs`.

    Slots are linked into an intrusive free list through the vacant slots themselves. The class keeps
    that structure in place; `contents` is the map it stands for, and `Valid` ties the two together.
 */
module Slab {

  const U32_MAX: nat := 0xFFFF_FFFF
  const GENERATIONS: nat := 0x1_0000_0000

  /** The end-of-list marker stored in `free_head` and `next_free`. */
  const FREE_LIST_END: nat := U32_MAX

  /** Both fields are `u32` in the source. */
  datatype ResourceId = ResourceId(index: nat, generation: nat)

  datatype Slot<E> =
    | Occupied(entry: E, generation: nat)
    | Vacant(nextFree: nat, generation: nat)

  datatype LookupError = StaleHandle | NotAllocated

  datatype Lookup<+E> = Found(entry: E) | Missing(error: LookupError)

  datatype Inserted = Inserted(id: ResourceId) | TableFull

  /** The id the `m`-th insertion into slot `index` hands out: the generation counter wraps at 2^32. */
  function Minted(index: nat, m: nat): ResourceId {
    ResourceId(index, m % GENERATIONS)
  }

  // ---------------------------------------------------------------------------
  // The free list threaded through the vacant slots
  // ---------------------------------------------------------------------------

  /** `free` lists, without repetition, the slots reached from `head` along the vacant links. */
  ghost predicate Linked<E(!new)>(entries: seq<Slot<E>>, head: nat, free: seq<nat>)
    decreases |free|
  {
    if free == [] then head == FREE_LIST_END
    else
      && head == free[0] && head < |entries| && entries[head].Vacant? && head !in free[1..]
      && Linked(entries, entries[head].nextFree, free[1..])
  }

  /** A write to a slot outside the free list leaves the list as it was. */
  lemma {:induction false} LinkedUpdate<E(!new)>(entries: seq<Slot<E>>, head: nat, free: seq<nat>, i: nat, s: Slot<E>)
    requires Linked(entries, head, free) && i < |entries| && i !in free
    ensures Linked(entries[i := s], head, free)
    decreases |free|
  {
    if free != [] {
      LinkedUpdate(entries, entries[head].nextFree, free[1..], i, s);
    }
  }

  /** The fresh slots from `lo` on, each pointing at the next and the last at the end marker. */
  function FreshSlots<E>(lo: nat, hi: nat): (slots: seq<Slot<E>>)
    requires lo <= hi
    ensures |slots| == hi - lo
    ensures forall i :: 0 <= i < hi - lo ==> slots[i] == Vacant(if lo + i + 1 < hi then lo + i + 1 else FREE_LIST_END, 0)
    decreases hi - lo
  {
    if lo == hi then [] else [Vacant(if lo + 1 < hi then lo + 1 else FREE_LIST_END, 0)] + FreshSlots(lo + 1, hi)
  }

  function Range(lo: nat, hi: nat): (r: seq<nat>)
    requires lo <= hi
    ensures |r| == hi - lo && forall i :: 0 <= i < |r| ==> r[i] == lo + i
    decreases hi - lo
  {
    if lo == hi then [] else [lo] + Range(lo + 1, hi)
  }

  lemma RangeHas(lo: nat, hi: nat)
    requires lo <= hi
    ensures forall i :: i in Range(lo, hi) <==> lo <= i < hi
    ensures lo < hi ==> Range(lo, hi)[1..] == Range(lo + 1, hi)
  {
    var r := Range(lo, hi);
    forall i | lo <= i < hi
      ensures i in r
    {
      assert r[i - lo] == i;
    }
  }

  function Zeros(n: nat): (zs: seq<nat>)
    ensures |zs| == n && forall i :: 0 <= i < n ==> zs[i] == 0
  {
    if n == 0 then [] else [0] + Zeros(n - 1)
  }

  lemma {:induction false} FreshLinked<E(!new)>(entries: seq<Slot<E>>, lo: nat, hi: nat)
    requires lo < hi == |entries| <= U32_MAX
    requires forall i :: lo <= i < hi ==> entries[i] == Vacant(if i + 1 < hi then i + 1 else FREE_LIST_END, 0)
    ensures Linked(entries, lo, Range(lo, hi))
    decreases hi - lo
  {
    RangeHas(lo, hi);
    if lo + 1 < hi {
      FreshLinked(entries, lo + 1, hi);
      RangeHas(lo + 1, hi);
    }
  }

  ghost predicate Live<E(!new)>(entries: seq<Slot<E>>, id: ResourceId) {
    id.index < |entries| && entries[id.index].Occupied? && entries[id.index].generation == id.generation
  }

  /** `contents` is what the occupied slots hold, keyed by index and generation. */
  ghost predicate Abstracts<E(!new)>(entries: seq<Slot<E>>, contents: map<ResourceId, E>) {
    forall id {:trigger id in contents} {:trigger Live(entries, id)} ::
      && (id in contents <==> Live(entries, id))
      && (id in contents ==> contents[id] == entries[id.index].entry)
  }

  /** Everything that holds between the concrete fields of a table and the values they stand for. */
  ghost predicate Coherent<E(!new)>(entries: seq<Slot<E>>, head: nat, free: seq<nat>, mints: seq<nat>, contents: map<ResourceId, E>)
  {
    && |entries| == |mints|
    && Linked(entries, head, free)
    && (forall i :: 0 <= i < |entries| ==> (entries[i].Vacant? <==> i in free))
    && Abstracts(entries, contents)
    && (forall i :: 0 <= i < |entries| ==> entries[i].generation == mints[i] % GENERATIONS)
  }

  lemma CoherentGrow<E(!new)>(entries: seq<Slot<E>>, head: nat, mints: seq<nat>, contents: map<ResourceId, E>, hi: nat)
    requires Coherent(entries, head, [], mints, contents) && |entries| < hi <= U32_MAX
    ensures Coherent(entries + FreshSlots(|entries|, hi), |entries|, Range(|entries|, hi), mints + Zeros(hi - |entries|), contents)
  {
    var lo, added: seq<Slot<E>> := |entries|, FreshSlots(|entries|, hi);
    var grown := entries + added;
    assert forall i :: 0 <= i < lo ==> grown[i] == entries[i];
    assert forall i :: lo <= i < hi ==> grown[i] == added[i - lo];
    FreshLinked(grown, lo, hi);
    RangeHas(lo, hi);
    forall id: ResourceId
      ensures Live(grown, id) <==> Live(entries, id)
    {
      assert id.index < hi ==> grown[id.index] == if id.index < lo then entries[id.index] else added[id.index - lo];
    }
  }

  lemma AbstractsInsert<E(!new)>(entries: seq<Slot<E>>, contents: map<ResourceId, E>, id: ResourceId, entry: E)
    requires Abstracts(entries, contents) && id.index < |entries| && entries[id.index].Vacant?
    ensures id !in contents
    ensures Abstracts(entries[id.index := Occupied(entry, id.generation)], contents[id := entry])
  {
    assert !Live(entries, id);
    var after := entries[id.index := Occupied(entry, id.generation)];
    forall other: ResourceId
      ensures Live(after, other) <==> other == id || Live(entries, other)
    {
    }
  }

  lemma LinkedHead<E(!new)>(entries: seq<Slot<E>>, head: nat, free: seq<nat>)
    requires Linked(entries, head, free) && free != []
    ensures head == free[0] && head < |entries| && entries[head].Vacant? && Linked(entries, entries[head].nextFree, free[1..])
    ensures head !in free[1..]
  {
  }

  lemma CoherentInsert<E(!new)>(entries: seq<Slot<E>>, head: nat, free: seq<nat>, mints: seq<nat>, contents: map<ResourceId, E>, entry: E)
    returns (id: ResourceId)
    requires free != [] && Coherent(entries, head, free, mints, contents)
    ensures head == free[0] && head < |entries| == |mints| && entries[head].Vacant?
    ensures id == Minted(head, mints[head] + 1) && id !in contents
    ensures id.generation == (entries[head].generation + 1) % GENERATIONS
    ensures Coherent(entries[head := Occupied(entry, id.generation)], entries[head].nextFree, free[1..],
                     mints[head := mints[head] + 1], contents[id := entry])
  {
    hide Linked, Abstracts;
    LinkedHead(entries, head, free);
    id := Minted(head, mints[head] + 1);
    AbstractsInsert(entries, contents, id, entry);
    LinkedUpdate(entries, entries[head].nextFree, free[1..], head, Occupied(entry, id.generation));
    assert free == [head] + free[1..];
  }

  lemma CoherentRemove<E(!new)>(entries: seq<Slot<E>>, head: nat, free: seq<nat>, mints: seq<nat>, contents: map<ResourceId, E>, id: ResourceId)
    requires Coherent(entries, head, free, mints, contents) && id in contents
    ensures id.index < |entries|
    ensures Coherent(entries[id.index := Vacant(head, id.generation)], id.index, [id.index] + free, mints, contents - {id})
  {
    assert Live(entries, id);
    LinkedUpdate(entries, head, free, id.index, Vacant(head, id.generation));
    assert ([id.index] + free)[1..] == free;
  }

  lemma CardinalitySteps<E>(contents: map<ResourceId, E>, id: ResourceId, e: E)
    ensures id !in contents ==> |contents[id := e]| == |contents| + 1
    ensures id in contents ==> |contents - {id}| == |contents| - 1
  {
    if id in contents {
      assert contents == (contents - {id})[id := contents[id]];
    }
  }

  /** Where the list ends nothing is free, and only there. */
  lemma CoherentHead<E(!new)>(entries: seq<Slot<E>>, head: nat, free: seq<nat>, mints: seq<nat>, contents: map<ResourceId, E>)
    requires Coherent(entries, head, free, mints, contents) && |entries| <= U32_MAX
    ensures head == FREE_LIST_END <==> free == []
    ensures free != [] ==> head == free[0]
  {
  }

  lemma CoherentCounts<E(!new)>(entries: seq<Slot<E>>, head: nat, free: seq<nat>, mints: seq<nat>, contents: map<ResourceId, E>)
    requires Coherent(entries, head, free, mints, contents)
    ensures |mints| == |entries|
  {
  }

  /** The counts after slots were added to make `n` of them. */
  function Padded(mints: seq<nat>, n: nat): seq<nat>
    requires |mints| <= n
  {
    mints + Zeros(n - |mints|)
  }

  // ---------------------------------------------------------------------------
  // The table
  // ---------------------------------------------------------------------------

  class ResourceTable<E(!new)> {
    var entries: seq<Slot<E>>
    var freeHead: nat
    var len: nat
    var capacity: nat

    /** The live entries by id: what the slab stores. */
    ghost var contents: map<ResourceId, E>
    /** The free list, in order. */
    ghost var free: seq<nat>
    /** How many insertions each slot has seen; the source keeps only this number modulo 2^32. */
    ghost var mints: seq<nat>

    ghost predicate Valid()
      reads this
    {
      && 0 < capacity <= U32_MAX
      && |entries| == capacity
      && Coherent(entries, freeHead, free, mints, contents)
      && len == |contents|
      && len + |free| == capacity
    }

    constructor (initialCapacity: nat)
      requires 0 < initialCapacity <= U32_MAX
      ensures Valid()
      ensures contents == map[] && capacity == initialCapacity
      ensures mints == Zeros(initialCapacity) && free == Range(0, initialCapacity)
    {
      entries := FreshSlots(0, initialCapacity);
      freeHead, len, capacity := 0, 0, initialCapacity;
      contents, free, mints := map[], Range(0, initialCapacity), Zeros(initialCapacity);
      new;
      FreshLinked(entries, 0, initialCapacity);
      RangeHas(0, initialCapacity);
    }

    /** Doubles the slot array when the free list is exhausted; the new slots have seen no insertion. */
    method Grow() returns (ok: bool)
      requires Valid() && free == []
      modifies this
      ensures Valid()
      ensures contents == old(contents)
      ensures ok == (2 * old(capacity) <= 0xFFFF_FFFF)
      ensures ok ==> capacity == 2 * old(capacity) && free == Range(old(capacity), capacity) && mints == Padded(old(mints), capacity)
      ensures !ok ==> capacity == old(capacity) && free == [] && mints == old(mints) && entries == old(entries)
    {
      CoherentCounts(entries, freeHead, free, mints, contents);
      hide Coherent, Linked;
      if 2 * capacity > U32_MAX {
        return false;
      }
      var oldCap, newCap := capacity, 2 * capacity;
      CoherentGrow(entries, freeHead, mints, contents, newCap);
      entries := entries + FreshSlots(oldCap, newCap);
      freeHead, capacity := oldCap, newCap;
      free, mints := Range(oldCap, newCap), mints + Zeros(newCap - oldCap);
      return true;
    }

    /** The vacant slot at the head of the free list becomes occupied, one generation on. */
    method OccupyHead(entry: E) returns (id: ResourceId)
      requires Valid() && free != []
      modifies this
      ensures Valid()
      ensures id !in old(contents) && contents == old(contents)[id := entry] && capacity == old(capacity)
      ensures id.index == old(free[0]) && free == old(free[1..]) && id.index < capacity == |mints| == |old(mints)|
      ensures mints == old(mints)[id.index := old(mints)[id.index] + 1] && id == Minted(id.index, mints[id.index])
    {
      hide Coherent;
      ghost var minted := CoherentInsert(entries, freeHead, free, mints, contents, entry);
      CardinalitySteps(contents, minted, entry);
      var index := freeHead;
      var slot := entries[index];
      id := ResourceId(index, (slot.generation + 1) % GENERATIONS);
      freeHead := slot.nextFree;
      entries := entries[index := Occupied(entry, id.generation)];
      len := len + 1;
      contents := contents[id := entry];
      mints := mints[index := mints[index] + 1];
      free := free[1..];
    }

    /** Stores `entry` under a fresh id, in the slot at the head of the free list or the first of the slots
        added for it; that slot, and no other, has seen one insertion more. It fails only when the free list
        is empty and the doubled capacity would leave `u32`. */
    method Insert(entry: E) returns (r: Inserted)
      requires Valid()
      modifies this
      ensures Valid()
      ensures r.TableFull? <==> |old(contents)| == old(capacity) && 2 * old(capacity) > 0xFFFF_FFFF
      ensures r.TableFull? ==> contents == old(contents) && mints == old(mints) && capacity == old(capacity) && entries == old(entries)
      ensures r.Inserted? ==> r.id !in old(contents) && contents == old(contents)[r.id := entry]
      ensures r.Inserted? ==> r.id.index == (if old(free) != [] then old(free)[0] else old(capacity))
      ensures r.Inserted? ==>
                && capacity == (if old(free) != [] then old(capacity) else 2 * old(capacity))
                && free == (if old(free) != [] then old(free)[1..] else Range(old(capacity), capacity)[1..])
      ensures r.Inserted? ==> |old(mints)| <= capacity && r.id.index < capacity <= U32_MAX
      ensures r.Inserted? ==> mints == Padded(old(mints), capacity)[r.id.index := Padded(old(mints), capacity)[r.id.index] + 1]
      ensures r.Inserted? ==> r.id == Minted(r.id.index, mints[r.id.index])
    {
      CoherentHead(entries, freeHead, free, mints, contents);
      CoherentCounts(entries, freeHead, free, mints, contents);
      hide Coherent, Linked;
      assert Padded(mints, capacity) == mints;
      if freeHead == FREE_LIST_END {
        var grown := Grow();
        if !grown {
          return TableFull;
        }
      }
      var id := OccupyHead(entry);
      return Inserted(id);
    }

    /** Looks an id up, telling a vacant slot from a reused one. */
    function Get(id: ResourceId): (r: Lookup<E>)
      requires Valid()
      reads this
      ensures r.Found? <==> id in contents
      ensures r.Found? ==> r.entry == contents[id]
    {
      if id.index >= |entries| then Missing(StaleHandle)
      else match entries[id.index]
        case Occupied(entry, generation) => if generation == id.generation then Found(entry) else Missing(StaleHandle)
        case Vacant(_, _) => Missing(NotAllocated)
    }

    /** The write half of `get_mut`: replaces a live entry in place. */
    method Put(id: ResourceId, entry: E)
      requires Valid() && id in contents
      modifies this
      ensures Valid()
      ensures contents == old(contents)[id := entry] && mints == old(mints) && capacity == old(capacity)
    {
      LinkedUpdate(entries, freeHead, free, id.index, Occupied(entry, id.generation));
      entries := entries[id.index := Occupied(entry, id.generation)];
      contents := contents[id := entry];
    }

    /** An occupied slot becomes the vacant head of the free list. It keeps its generation. */
    method Vacate(id: ResourceId)
      requires Valid() && id in contents
      modifies this
      ensures Valid()
      ensures contents == old(contents) - {id} && mints == old(mints) && capacity == old(capacity)
      ensures freeHead == id.index && free == [id.index] + old(free) && id.index < |old(entries)|
      ensures entries == old(entries)[id.index := Vacant(old(freeHead), id.generation)]
    {
      hide Coherent;
      CoherentRemove(entries, freeHead, free, mints, contents, id);
      CardinalitySteps(contents, id, contents[id]);
      entries := entries[id.index := Vacant(freeHead, id.generation)];
      freeHead := id.index;
      len := len - 1;
      contents := contents - {id};
      free := [id.index] + free;
    }

    /** Takes an entry out; its slot is the next to be handed out. */
    method Remove(id: ResourceId) returns (r: Lookup<E>)
      requires Valid()
      modifies this
      ensures Valid()
      ensures r == old(Get(id))
      ensures contents == old(contents) - {id}
      ensures mints == old(mints) && capacity == old(capacity)
      ensures r.Found? ==> freeHead == id.index && free == [id.index] + old(free) && id.index < |old(entries)|
      ensures r.Found? ==> entries == old(entries)[id.index := Vacant(old(freeHead), id.generation)]
      ensures r.Missing? ==> entries == old(entries) && free == old(free)
    {
      hide Valid;
      r := Get(id);
      if r.Found? {
        Vacate(id);
      } else {
        assert contents - {id} == contents;
      }
    }
  }

  // ---------------------------------------------------------------------------
  // What the generation counter does and does not detect
  // ---------------------------------------------------------------------------

  lemma {:induction false} SameGeneration(m: nat, n: nat)
    requires m <= n
    ensures m % GENERATIONS == n % GENERATIONS <==> (n - m) % GENERATIONS == 0
  {
    var d := n - m;
    assert n == (m / GENERATIONS + d / GENERATIONS) * GENERATIONS + (m % GENERATIONS + d % GENERATIONS);
  }

  /** What a client does with a table, and what it is handed. */
  datatype TableOp<E> = DoInsert(entry: E) | DoPut(id: ResourceId, entry: E) | DoRemove(id: ResourceId)

  datatype Event = Handed(id: ResourceId) | NothingHanded

  /** How often a slot's ids were handed out. */
  function Insertions(trace: seq<Event>, index: nat): nat {
    if trace == [] then 0
    else
      var last := trace[|trace| - 1];
      Insertions(trace[..|trace| - 1], index) + if last.Handed? && last.id.index == index then 1 else 0
  }

  lemma {:induction false} InsertionsSplit(trace: seq<Event>, i: nat, index: nat)
    requires i <= |trace|
    ensures Insertions(trace, index) == Insertions(trace[..i], index) + Insertions(trace[i..], index)
    decreases |trace|
  {
    if i == |trace| {
      assert trace[..i] == trace;
    } else {
      var front := trace[..|trace| - 1];
      InsertionsSplit(front, i, index);
      assert front[..i] == trace[..i];
      assert trace[i..][..|trace| - i - 1] == front[i..];
    }
  }

  /** The counts of a table are those of what it handed out. */
  ghost predicate Counted(mints: seq<nat>, trace: seq<Event>) {
    forall j: nat :: Insertions(trace, j) == if j < |mints| then mints[j] else 0
  }

  /** Every id handed out carries the number of times its slot was, up to then, modulo 2^32. */
  ghost predicate Numbered(trace: seq<Event>) {
    forall i :: 0 <= i < |trace| && trace[i].Handed? ==>
      trace[i].id == Minted(trace[i].id.index, Insertions(trace[..i + 1], trace[i].id.index))
  }

  ghost predicate History<E(!new)>(t: ResourceTable<E>, trace: seq<Event>)
    reads t
  {
    Counted(t.mints, trace) && Numbered(trace)
  }

  lemma CountedGrows(mints: seq<nat>, trace: seq<Event>, n: nat, id: ResourceId)
    requires Counted(mints, trace) && |mints| <= n && id.index < n
    ensures Counted(Padded(mints, n)[id.index := Padded(mints, n)[id.index] + 1], trace + [Handed(id)])
  {
    var longer := trace + [Handed(id)];
    assert longer[..|trace|] == trace;
    forall j: nat
      ensures Insertions(longer, j) == Insertions(trace, j) + if j == id.index then 1 else 0
    {
    }
  }

  lemma CountedIdles(mints: seq<nat>, trace: seq<Event>)
    requires Counted(mints, trace)
    ensures Counted(mints, trace + [NothingHanded])
  {
    var longer := trace + [NothingHanded];
    assert longer[..|trace|] == trace;
    forall j: nat
      ensures Insertions(longer, j) == Insertions(trace, j)
    {
    }
  }

  lemma NumberedGrows(trace: seq<Event>, e: Event)
    requires Numbered(trace)
    requires e.Handed? ==> e.id == Minted(e.id.index, Insertions(trace + [e], e.id.index))
    ensures Numbered(trace + [e])
  {
    var longer := trace + [e];
    forall i | 0 <= i < |longer| && longer[i].Handed?
      ensures longer[i].id == Minted(longer[i].id.index, Insertions(longer[..i + 1], longer[i].id.index))
    {
      if i < |trace| {
        assert longer[..i + 1] == trace[..i + 1] && longer[i] == trace[i];
      } else {
        assert longer[..i + 1] == longer;
      }
    }
  }

  lemma NothingYet(n: nat)
    ensures Counted(Zeros(n), []) && Numbered([])
  {
    assert forall j: nat :: Insertions([], j) == 0;
  }

  /** Any use of a new table, with what it hands out. */
  method Use<E(!new)>(t: ResourceTable<E>, ops: seq<TableOp<E>>) returns (trace: seq<Event>)
    requires t.Valid() && t.mints == Zeros(t.capacity)
    modifies t
    ensures t.Valid() && |trace| == |ops| && History(t, trace)
  {
    hide ResourceTable.Valid, Counted, Numbered;
    trace := [];
    NothingYet(t.capacity);
    for i := 0 to |ops|
      invariant t.Valid() && |trace| == i && History(t, trace)
    {
      var event := NothingHanded;
      ghost var before := t.mints;
      match ops[i] {
        case DoInsert(entry) =>
          var r := t.Insert(entry);
          if r.Inserted? {
            event := Handed(r.id);
            CountedGrows(before, trace, t.capacity, r.id);
            CountOf(t.mints, trace + [event], r.id.index);
          }
        case DoPut(id, entry) =>
          var found := t.Get(id);
          if found.Found? {
            t.Put(id, entry);
          }
        case DoRemove(id) =>
          var removed := t.Remove(id);
      }
      if event.NothingHanded? {
        CountedIdles(t.mints, trace);
      }
      NumberedGrows(trace, event);
      trace := trace + [event];
    }
  }

  lemma CountOf(mints: seq<nat>, trace: seq<Event>, j: nat)
    requires Counted(mints, trace) && j < |mints|
    ensures mints[j] == Insertions(trace, j)
  {
  }

  /** However a table was used, an id it once handed out is accepted exactly when the slot is occupied and a
      multiple of 2^32 insertions went into it since — none of them meaning the id is still live. */
  lemma StaleHandleDetection<E(!new)>(t: ResourceTable<E>, trace: seq<Event>, i: nat)
    requires t.Valid() && History(t, trace) && i < |trace| && trace[i].Handed?
    ensures var id := trace[i].id;
            && id.index < t.capacity
            && (t.Get(id).Found? <==> t.entries[id.index].Occupied? && Insertions(trace[i + 1..], id.index) % 0x1_0000_0000 == 0)
            && (t.Get(id) == Missing(NotAllocated) <==> t.entries[id.index].Vacant?)
            && (t.Get(id) == Missing(StaleHandle) <==>
                  t.entries[id.index].Occupied? && Insertions(trace[i + 1..], id.index) % 0x1_0000_0000 != 0)
  {
    var id := trace[i].id;
    InsertionsSplit(trace, i + 1, id.index);
    HandedIsCounted(trace, i);
    SameGeneration(Insertions(trace[..i + 1], id.index), Insertions(trace, id.index));
  }

  lemma HandedIsCounted(trace: seq<Event>, i: nat)
    requires i < |trace| && trace[i].Handed?
    ensures Insertions(trace[..i + 1], trace[i].id.index) >= 1
  {
    assert trace[..i + 1][i] == trace[i];
  }

  /** The table documents that an occupied slot has generation at least one; the wrapping counter breaks
      that when a multiple of 2^32 insertions went into the slot, and only then. */
  lemma OccupiedGenerationIsZeroExactlyOnWrap<E(!new)>(t: ResourceTable<E>, trace: seq<Event>, index: nat)
    requires t.Valid() && History(t, trace) && index < t.capacity && t.entries[index].Occupied?
    ensures t.entries[index].generation == 0 <==> Insertions(trace, index) % 0x1_0000_0000 == 0
  {
    assert Insertions(trace, index) == t.mints[index];
  }

  /** A table of one slot, which is free and has seen `k` insertions. */
  ghost predicate OneSlot<E(!new)>(t: ResourceTable<E>, k: nat)
    reads t
  {
    t.Valid() && t.capacity == 1 && t.free == [0] && t.mints == [k] && t.contents == map[]
  }

  method InsertInto<E(!new)>(t: ResourceTable<E>, entry: E, ghost k: nat) returns (id: ResourceId)
    requires OneSlot(t, k)
    modifies t
    ensures t.Valid() && t.capacity == 1 && t.free == [] && t.mints == [k + 1]
    ensures id == Minted(0, k + 1) && t.contents == map[id := entry]
  {
    hide ResourceTable.Valid;
    assert Padded([k], 1) == [k];
    var inserted := t.Insert(entry);
    id := inserted.id;
  }

  method Reuse<E(!new)>(t: ResourceTable<E>, entry: E, ghost k: nat)
    requires OneSlot(t, k)
    modifies t
    ensures OneSlot(t, k + 1)
  {
    hide ResourceTable.Valid, Minted;
    var id := InsertInto(t, entry, k);
    var removed := t.Remove(id);
    IndexOfMinted(k + 1);
    assert t.contents == map[];
  }

  lemma IndexOfMinted(m: nat)
    ensures Minted(0, m).index == 0
  {
  }

  /** The failing input: on a table of one slot, the handle of `first` is accepted again, and reads `last`,
      after 2^32 reuses of the slot. */
  method StaleHandleIsAccepted<E(!new)>(first: E, last: E) returns (r: Lookup<E>)
    ensures r == Found(last)
  {
    hide ResourceTable.Valid;
    var t := new ResourceTable<E>(1);
    RangeHas(0, 1);
    assert t.mints == [0] && t.free == [0];
    var stale := InsertInto(t, first, 0);
    var removed := t.Remove(stale);
    assert t.contents == map[];
    for k := 1 to GENERATIONS
      invariant fresh(t) && OneSlot(t, k)
    {
      Reuse(t, first, k);
    }
    var id := InsertInto(t, last, GENERATIONS);
    assert id == stale;
    r := t.Get(stale);
  }
}
