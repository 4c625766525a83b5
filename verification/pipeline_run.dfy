/** The copy and conservation law of `benches/src/real_wasm.rs`: a source, k identity processors and a sink,
    stepped in any order their queues allow. */
module PipelineRun {
  import opened Wrappers
  import opened Slab
  import opened ManagerSpec
  import opened HostSpec
  import opened InvokerSpec
  import opened StageCalls

  /** The flow as the driver holds it. Stage `i` is component `i + 1`; stage 0 is the source, the last stage
      the sink, and queue `j` runs from stage `j` to stage `j + 1`. `calls[i]` counts the elements stage `i`
      has handled, `delivered` is what the sink has read. */
  datatype Line = Line(
    mgr: ManagerState, stores: seq<Store>, queues: seq<seq<ResourceId>>, calls: seq<nat>,
    delivered: seq<seq<byte>>, failed: bool)

  /** What stays fixed: the number of processors, the flow, the queue capacity, and what the source emits. */
  datatype Plan = Plan(k: nat, flow: nat, capacity: nat, inputs: seq<seq<byte>>, budgets: map<nat, Budget>)
  {
    /** Every element has bytes and fits a buffer, and every stage can afford a buffer for it. */
    ghost predicate Sensible() {
      && capacity > 0
      && (forall x :: x in inputs ==> 0 < |x| <= MAX_BUFFER_SIZE)
      && (forall x, c :: x in inputs && 1 <= c <= k + 2 && c in budgets ==>
            budgets[c].used == 0 && TierCapacity(|x|) <= budgets[c].max)
    }
  }

  datatype Step = Step(stage: nat, at: Slots)

  predicate Shaped(p: Plan, l: Line) {
    |l.stores| == p.k + 2 && |l.queues| == p.k + 1 && |l.calls| == p.k + 2
  }

  /** A stage may run when it has input and its output queue has room; ids and slots are fresh. */
  predicate Enabled(p: Plan, l: Line, step: Step) {
    && Shaped(p, l) && step.stage < p.k + 2 && !l.failed
    && (if step.stage == 0 then l.calls[0] < |p.inputs| else l.queues[step.stage - 1] != [])
    && (step.stage <= p.k ==> |l.queues[step.stage]| < p.capacity)
    && Usable(l.mgr, step.at)
  }

  /** What a `read_all` of the input hands the guest. */
  function BytesRead(v: View, rep: nat): seq<byte> {
    match v.ReadAll(rep).1
    case Value(Bytes(data)) => data
    case _ => []
  }

  function Pull(p: Plan, l: Line, at: Slots): Line
    requires Enabled(p, l, Step(0, at))
  {
    var (v, r) := InvokePull(View(l.stores[0], l.mgr), DataSource, SourceProgram(p.inputs[l.calls[0]], at), Returned(Some(at.out)));
    var called := l.(mgr := v.mgr, stores := l.stores[0 := v.store]);
    match r
    case Completed(Some(h)) => called.(queues := l.queues[0 := l.queues[0] + [h]], calls := l.calls[0 := l.calls[0] + 1])
    case _ => called.(failed := true)
  }

  function Process(p: Plan, l: Line, i: nat, at: Slots): Line
    requires 0 < i <= p.k && Enabled(p, l, Step(i, at))
  {
    var h, rest := l.queues[i - 1][0], l.queues[i - 1][1..];
    var before := View(l.stores[i], l.mgr);
    var data := BytesRead(Marshal(before, h, at.input), at.input);
    var (v, r) := InvokeProcess(before, Transform, h, at.input, ProcessorProgram(data, at), Returned(Some(at.out)));
    var called := l.(mgr := v.mgr, stores := l.stores[i := v.store], queues := l.queues[i - 1 := rest]);
    match r
    case Completed(Some(out)) =>
      called.(queues := called.queues[i := l.queues[i] + [out]], calls := l.calls[i := l.calls[i] + 1])
    case _ => called.(failed := true)
  }

  function Push(p: Plan, l: Line, at: Slots): Line
    requires Enabled(p, l, Step(p.k + 1, at))
  {
    var h, rest := l.queues[p.k][0], l.queues[p.k][1..];
    var before := View(l.stores[p.k + 1], l.mgr);
    var data := BytesRead(Marshal(before, h, at.input), at.input);
    var (v, r) := InvokePush(before, DataSink, h, at.input, SinkProgram(at), Returned(Ready));
    var called := l.(mgr := v.mgr, stores := l.stores[p.k + 1 := v.store], queues := l.queues[p.k := rest]);
    match r
    case Completed(_) => called.(calls := l.calls[p.k + 1 := l.calls[p.k + 1] + 1], delivered := l.delivered + [data])
    case _ => called.(failed := true)
  }

  function Next(p: Plan, l: Line, step: Step): Line
    requires Enabled(p, l, step)
  {
    if step.stage == 0 then Pull(p, l, step.at)
    else if step.stage <= p.k then Process(p, l, step.stage, step.at)
    else Push(p, l, step.at)
  }

  // ---------------------------------------------------------------------------
  // Sums
  // ---------------------------------------------------------------------------

  function Sum(s: seq<nat>): nat {
    if s == [] then 0 else s[0] + Sum(s[1..])
  }

  lemma {:induction false} SumUpdate(s: seq<nat>, i: nat, v: nat)
    requires i < |s|
    ensures Sum(s[i := v]) == Sum(s) - s[i] + v
  {
    if i > 0 {
      SumUpdate(s[1..], i - 1, v);
      assert s[i := v][1..] == s[1..][i - 1 := v];
    } else {
      assert s[i := v][1..] == s[1..];
    }
  }

  lemma {:induction false} SumConstant(s: seq<nat>, n: nat)
    requires forall i :: 0 <= i < |s| ==> s[i] == n
    ensures Sum(s) == |s| * n
  {
    if s != [] {
      SumConstant(s[1..], n);
    }
  }

  /** The bytes of the first `n` elements. */
  function PrefixBytes(inputs: seq<seq<byte>>, n: nat): nat
    requires n <= |inputs|
  {
    if n == 0 then 0 else PrefixBytes(inputs, n - 1) + |inputs[n - 1]|
  }

  /** The bytes each stage has handled. */
  function Handled(inputs: seq<seq<byte>>, calls: seq<nat>): (bytes: seq<nat>)
    requires forall i :: 0 <= i < |calls| ==> calls[i] <= |inputs|
    ensures |bytes| == |calls| && forall i :: 0 <= i < |calls| ==> bytes[i] == PrefixBytes(inputs, calls[i])
  {
    if calls == [] then [] else [PrefixBytes(inputs, calls[0])] + Handled(inputs, calls[1..])
  }

  /** The ledger after the calls so far: every stage but the source has copied its elements in once, every
      stage but the sink has copied them out once. */
  function Copied(inputs: seq<seq<byte>>, calls: seq<nat>): CopyStats
    requires calls != [] && forall i :: 0 <= i < |calls| ==> calls[i] <= |inputs|
  {
    var ins, outs := calls[1..], calls[..|calls| - 1];
    CopyStats(
      Sum(Handled(inputs, ins)) + Sum(Handled(inputs, outs)), Sum(ins) + Sum(outs),
      Sum(ins), Sum(outs))
  }

  lemma HandledUpdate(inputs: seq<seq<byte>>, calls: seq<nat>, i: nat)
    requires i < |calls| && (forall j :: 0 <= j < |calls| ==> calls[j] <= |inputs|) && calls[i] < |inputs|
    ensures Sum(Handled(inputs, calls[i := calls[i] + 1])) == Sum(Handled(inputs, calls)) + |inputs[calls[i]]|
    ensures Sum(calls[i := calls[i] + 1]) == Sum(calls) + 1
  {
    hide Sum;
    var next := calls[i := calls[i] + 1];
    assert Handled(inputs, next) == Handled(inputs, calls)[i := PrefixBytes(inputs, calls[i] + 1)];
    SumUpdate(Handled(inputs, calls), i, PrefixBytes(inputs, calls[i] + 1));
    SumUpdate(calls, i, calls[i] + 1);
  }

  lemma InsUpdate(inputs: seq<seq<byte>>, calls: seq<nat>, i: nat)
    requires 0 < i < |calls| && (forall j :: 0 <= j < |calls| ==> calls[j] <= |inputs|) && calls[i] < |inputs|
    ensures var next := calls[i := calls[i] + 1];
            && Sum(Handled(inputs, next[1..])) == Sum(Handled(inputs, calls[1..])) + |inputs[calls[i]]|
            && Sum(next[1..]) == Sum(calls[1..]) + 1
  {
    hide Sum, Handled;
    assert calls[i := calls[i] + 1][1..] == calls[1..][i - 1 := calls[i] + 1];
    HandledUpdate(inputs, calls[1..], i - 1);
  }

  lemma OutsUpdate(inputs: seq<seq<byte>>, calls: seq<nat>, i: nat)
    requires i < |calls| - 1 && (forall j :: 0 <= j < |calls| ==> calls[j] <= |inputs|) && calls[i] < |inputs|
    ensures var next, last := calls[i := calls[i] + 1], |calls| - 1;
            && Sum(Handled(inputs, next[..last])) == Sum(Handled(inputs, calls[..last])) + |inputs[calls[i]]|
            && Sum(next[..last]) == Sum(calls[..last]) + 1
  {
    hide Sum, Handled;
    assert calls[i := calls[i] + 1][..|calls| - 1] == calls[..|calls| - 1][i := calls[i] + 1];
    HandledUpdate(inputs, calls[..|calls| - 1], i);
  }

  /** One more element at stage `i` is one more copy in, one more copy out, or both. */
  lemma CopiedUpdate(inputs: seq<seq<byte>>, calls: seq<nat>, i: nat)
    requires 2 <= |calls| && i < |calls| && (forall j :: 0 <= j < |calls| ==> calls[j] <= |inputs|) && calls[i] < |inputs|
    ensures var n := |inputs[calls[i]]|;
            var read := if i == 0 then Copied(inputs, calls) else Copied(inputs, calls).Record(n, HostToComponent);
            var both := if i == |calls| - 1 then read else read.Record(n, ComponentToHost);
            Copied(inputs, calls[i := calls[i] + 1]) == both
  {
    hide Sum, Handled;
    var next, last := calls[i := calls[i] + 1], |calls| - 1;
    if i > 0 {
      InsUpdate(inputs, calls, i);
    } else {
      assert next[1..] == calls[1..];
    }
    if i < last {
      OutsUpdate(inputs, calls, i);
    } else {
      assert next[..last] == calls[..last];
    }
  }

  // ---------------------------------------------------------------------------
  // The invariant
  // ---------------------------------------------------------------------------

  /** Queue `j` holds, in order, the elements stage `j` has handled and stage `j + 1` has not; `live` gives
      the buffer of each element under way by the number the source gave it. */
  ghost predicate Queued(p: Plan, l: Line, live: map<nat, ResourceId>) {
    && Shaped(p, l)
    && l.calls[0] <= |p.inputs|
    && (forall j :: 0 <= j <= p.k ==> Stretch(l.queues[j], l.calls[j + 1], l.calls[j], live))
  }

  /** The queue holds the elements numbered from `from` up to `to`. */
  ghost predicate Stretch(queue: seq<ResourceId>, from: nat, to: nat, live: map<nat, ResourceId>) {
    from + |queue| == to && forall i :: 0 <= i < |queue| ==> Numbered(live, from + i, queue[i])
  }

  predicate Numbered(live: map<nat, ResourceId>, o: nat, h: ResourceId) {
    o in live && live[o] == h
  }

  /** The live buffers are those of the elements under way, one each, holding what the source emitted. */
  ghost predicate Stocked(inputs: seq<seq<byte>>, m: ManagerState, live: map<nat, ResourceId>) {
    && (forall o :: o in live ==> o < |inputs| && Holds(m, live[o], inputs[o]))
    && (forall o, q :: o in live && q in live && live[o] == live[q] ==> o == q)
    && (forall h :: h in m.entries ==> h in live.Values)
  }

  ghost predicate Inv(p: Plan, l: Line, live: map<nat, ResourceId>) {
    && Queued(p, l, live)
    && (forall o :: o in live <==> l.calls[p.k + 1] <= o < l.calls[0])
    && Stocked(p.inputs, l.mgr, live)
    && (forall i :: 0 <= i < |l.stores| ==> l.stores[i] == Store(i + 1, p.flow, map[]))
    && l.mgr.budgets == p.budgets
    && !l.failed
    && Ordered(l.calls, |p.inputs|)
    && p.flow in l.mgr.ledger && l.mgr.ledger[p.flow] == Copied(p.inputs, l.calls)
    && l.delivered == p.inputs[..l.calls[p.k + 1]]
  }

  /** No stage is ahead of the one before it. */
  ghost predicate Ordered(calls: seq<nat>, n: nat) {
    && (forall i :: 0 <= i < |calls| ==> calls[i] <= n)
    && (forall i, j :: 0 <= i <= j < |calls| ==> calls[j] <= calls[i])
  }

  lemma {:induction false} CountsFall(calls: seq<nat>, n: nat)
    requires calls != [] ==> calls[0] <= n
    requires forall j :: 0 <= j < |calls| - 1 ==> calls[j + 1] <= calls[j]
    ensures Ordered(calls, n)
  {
    if |calls| > 1 {
      CountsFall(calls[1..], n);
      assert forall i :: 1 <= i < |calls| ==> calls[i] == calls[1..][i - 1];
    }
  }

  lemma StockPulled(inputs: seq<seq<byte>>, m: ManagerState, n: ManagerState, live: map<nat, ResourceId>, o: nat, h: ResourceId)
    requires Stocked(inputs, m, live) && o !in live && o < |inputs| && h !in m.entries
    requires Hands(m, n, h, inputs[o])
    ensures Stocked(inputs, n, live[o := h])
  {
    assert forall q :: q in live ==> live[q] in m.entries;
    forall g | g in n.entries
      ensures g in live[o := h].Values
    {
      if g != h {
        var q :| q in live && live[q] == g;
        assert live[o := h][q] == g;
      } else {
        assert live[o := h][o] == g;
      }
    }
  }

  lemma StockPushed(inputs: seq<seq<byte>>, m: ManagerState, n: ManagerState, live: map<nat, ResourceId>, o: nat)
    requires Stocked(inputs, m, live) && o in live && n.entries == m.entries - {live[o]}
    ensures Stocked(inputs, n, live - {o})
  {
    HoldsIsLive(inputs, m, live);
    hide Holds;
    forall q | q in live && q != o
      ensures Holds(n, live[q], inputs[q])
    {
      HoldsCarries(m, n, live[q], inputs[q]);
    }
    forall g | g in n.entries
      ensures g in (live - {o}).Values
    {
      var q :| q in live && live[q] == g;
      assert (live - {o})[q] == g;
    }
  }

  // ---------------------------------------------------------------------------
  // The queues, step by step
  // ---------------------------------------------------------------------------

  lemma StretchElsewhere(queue: seq<ResourceId>, from: nat, to: nat, live: map<nat, ResourceId>, o: nat, h: ResourceId)
    requires Stretch(queue, from, to, live) && !(from <= o < to)
    ensures Stretch(queue, from, to, live[o := h]) && Stretch(queue, from, to, live - {o})
  {
  }

  lemma StretchPop(queue: seq<ResourceId>, from: nat, to: nat, live: map<nat, ResourceId>)
    requires Stretch(queue, from, to, live) && queue != []
    ensures Stretch(queue[1..], from + 1, to, live) && from in live && live[from] == queue[0] && from < to
  {
    var first := queue[0];
    forall i | 0 <= i < |queue| - 1
      ensures Numbered(live, from + 1 + i, queue[1..][i])
    {
      assert queue[1..][i] == queue[i + 1];
    }
  }

  lemma StretchAppend(queue: seq<ResourceId>, from: nat, to: nat, live: map<nat, ResourceId>, h: ResourceId)
    requires Stretch(queue, from, to, live)
    ensures Stretch(queue + [h], from, to + 1, live[to := h])
  {
    var grown, after := queue + [h], live[to := h];
    forall i | 0 <= i < |grown|
      ensures Numbered(after, from + i, grown[i])
    {
      if i < |queue| {
        assert grown[i] == queue[i];
      }
    }
  }

  lemma QueuedPull(p: Plan, l: Line, live: map<nat, ResourceId>, t: Line, h: ResourceId)
    requires Queued(p, l, live) && l.calls[0] < |p.inputs| && Ordered(l.calls, |p.inputs|)
    requires Shaped(p, t) && t.queues == l.queues[0 := l.queues[0] + [h]] && t.calls == l.calls[0 := l.calls[0] + 1]
    ensures Queued(p, t, live[l.calls[0] := h])
  {
    hide Stretch;
    StretchAppend(l.queues[0], l.calls[1], l.calls[0], live, h);
    forall j | 0 < j <= p.k
      ensures Stretch(t.queues[j], t.calls[j + 1], t.calls[j], live[l.calls[0] := h])
    {
      StretchElsewhere(l.queues[j], l.calls[j + 1], l.calls[j], live, l.calls[0], h);
    }
  }

  lemma QueuedProcess(p: Plan, l: Line, live: map<nat, ResourceId>, t: Line, i: nat, h: ResourceId)
    requires Queued(p, l, live) && 0 < i <= p.k && l.queues[i - 1] != [] && Ordered(l.calls, |p.inputs|)
    requires Shaped(p, t) && t.calls == l.calls[i := l.calls[i] + 1]
    requires t.queues == l.queues[i - 1 := l.queues[i - 1][1..]][i := l.queues[i] + [h]]
    ensures Queued(p, t, live[l.calls[i] := h])
    ensures l.calls[i] in live && live[l.calls[i]] == l.queues[i - 1][0]
  {
    hide Stretch;
    var o := l.calls[i];
    StretchPop(l.queues[i - 1], o, l.calls[i - 1], live);
    StretchElsewhere(l.queues[i - 1][1..], o + 1, l.calls[i - 1], live, o, h);
    StretchAppend(l.queues[i], l.calls[i + 1], o, live, h);
    forall j | 0 <= j <= p.k && j != i - 1 && j != i
      ensures Stretch(l.queues[j], l.calls[j + 1], l.calls[j], live[o := h])
    {
      StretchElsewhere(l.queues[j], l.calls[j + 1], l.calls[j], live, o, h);
    }
    forall j | 0 <= j <= p.k
      ensures Stretch(t.queues[j], t.calls[j + 1], t.calls[j], live[o := h])
    {
    }
  }

  lemma QueuedPush(p: Plan, l: Line, live: map<nat, ResourceId>, t: Line)
    requires Queued(p, l, live) && l.queues[p.k] != [] && Ordered(l.calls, |p.inputs|)
    requires Shaped(p, t) && t.calls == l.calls[p.k + 1 := l.calls[p.k + 1] + 1]
    requires t.queues == l.queues[p.k := l.queues[p.k][1..]]
    ensures Queued(p, t, live - {l.calls[p.k + 1]})
    ensures l.calls[p.k + 1] in live && live[l.calls[p.k + 1]] == l.queues[p.k][0]
  {
    hide Stretch;
    var o := l.calls[p.k + 1];
    StretchPop(l.queues[p.k], o, l.calls[p.k], live);
    StretchElsewhere(l.queues[p.k][1..], o + 1, l.calls[p.k], live, o, l.queues[p.k][0]);
    forall j | 0 <= j < p.k
      ensures Stretch(t.queues[j], t.calls[j + 1], t.calls[j], live - {o})
    {
      StretchElsewhere(l.queues[j], l.calls[j + 1], l.calls[j], live, o, l.queues[p.k][0]);
    }
  }

  lemma QueuedIsOrdered(p: Plan, l: Line, live: map<nat, ResourceId>)
    requires Queued(p, l, live)
    ensures Ordered(l.calls, |p.inputs|)
  {
    CountsFall(l.calls, |p.inputs|);
  }

  // ---------------------------------------------------------------------------
  // The invariant, step by step
  // ---------------------------------------------------------------------------

  lemma PullKeeps(p: Plan, l: Line, live: map<nat, ResourceId>, at: Slots) returns (after: map<nat, ResourceId>)
    requires p.Sensible() && Inv(p, l, live) && Enabled(p, l, Step(0, at))
    ensures Inv(p, Pull(p, l, at), after)
    ensures Pull(p, l, at).calls == l.calls[0 := l.calls[0] + 1]
  {
    hide InvokePull, SourceProgram, Hands, TierCapacity, Queued, Stocked, Holds, Copied;
    var o := l.calls[0];
    var data, t := p.inputs[o], Pull(p, l, at);
    assert data in p.inputs;
    assert l.stores[0] == Idle(1, p.flow, l.mgr).store;
    var n := SourceCall(1, p.flow, l.mgr, data, at);
    assert t.mgr == n && t.stores == l.stores;
    after := live[o := at.h];
    QueuedPull(p, l, live, t, at.h);
    QueuedIsOrdered(p, t, after);
    StockPulled(p.inputs, l.mgr, n, live, o, at.h);
    HandsBudgets(l.mgr, n, at.h, data);
    CopiedUpdate(p.inputs, l.calls, 0);
  }

  lemma HandsBudgets(m: ManagerState, n: ManagerState, h: ResourceId, data: seq<byte>)
    requires Hands(m, n, h, data)
    ensures n.budgets == m.budgets
  {
  }

  lemma StockReplaced(inputs: seq<seq<byte>>, m: ManagerState, n: ManagerState, live: map<nat, ResourceId>, o: nat, h: ResourceId)
    requires Stocked(inputs, m, live) && o in live && h !in m.entries
    requires Holds(n, h, inputs[o]) && n.entries == (m.entries - {live[o]})[h := n.entries[h]]
    ensures Stocked(inputs, n, live[o := h])
  {
    hide Holds;
    assert forall q :: q in live ==> live[q] in m.entries by { HoldsIsLive(inputs, m, live); }
    forall q | q in live && q != o
      ensures Holds(n, live[q], inputs[q])
    {
      HoldsCarries(m, n, live[q], inputs[q]);
    }
    forall g | g in n.entries
      ensures g in live[o := h].Values
    {
      if g != h {
        var q :| q in live && live[q] == g;
        assert live[o := h][q] == g;
      } else {
        assert live[o := h][o] == g;
      }
    }
  }

  lemma HoldsIsLive(inputs: seq<seq<byte>>, m: ManagerState, live: map<nat, ResourceId>)
    requires Stocked(inputs, m, live)
    ensures forall q :: q in live ==> live[q] in m.entries
  {
  }

  lemma HoldsCarries(m: ManagerState, n: ManagerState, h: ResourceId, data: seq<byte>)
    requires Holds(m, h, data) && h in n.entries && n.entries[h] == m.entries[h]
    ensures Holds(n, h, data)
  {
  }

  /** What a process step does to the line: the bytes go on in a new buffer. */
  lemma ProcessDoes(p: Plan, l: Line, live: map<nat, ResourceId>, i: nat, at: Slots) returns (n: ManagerState)
    requires p.Sensible() && Inv(p, l, live) && 0 < i <= p.k && Enabled(p, l, Step(i, at))
    ensures var o, h := l.calls[i], l.queues[i - 1][0];
            && o in live && live[o] == h && o < |p.inputs|
            && Process(p, l, i, at) ==
               l.(mgr := n, queues := l.queues[i - 1 := l.queues[i - 1][1..]][i := l.queues[i] + [at.h]], calls := l.calls[i := o + 1])
            && Holds(n, at.h, p.inputs[o]) && n.entries == (l.mgr.entries - {h})[at.h := n.entries[at.h]]
            && n.budgets == l.mgr.budgets
            && n.ledger == l.mgr.RecordCopy(p.flow, |p.inputs[o]|, HostToComponent).RecordCopy(p.flow, |p.inputs[o]|, ComponentToHost).ledger
  {
    hide InvokeProcess, ProcessorProgram, TierCapacity, Stocked, Holds, Copied, View.ReadAll, Marshal, Stretch, ManagerState.RecordCopy, Ordered;
    var o, h := l.calls[i], l.queues[i - 1][0];
    StretchPop(l.queues[i - 1], o, l.calls[i - 1], live);
    HoldsAt(p.inputs, l.mgr, live, o);
    var data := p.inputs[o];
    assert data in p.inputs;
    assert View(l.stores[i], l.mgr) == Idle(i + 1, p.flow, l.mgr);
    n := ProcessorCall(i + 1, p.flow, l.mgr, h, data, at);
    assert BytesRead(Marshal(Idle(i + 1, p.flow, l.mgr), h, at.input), at.input) == data;
    assert Process(p, l, i, at).stores == l.stores;
  }

  lemma ProcessKeeps(p: Plan, l: Line, live: map<nat, ResourceId>, i: nat, at: Slots) returns (after: map<nat, ResourceId>)
    requires p.Sensible() && Inv(p, l, live) && 0 < i <= p.k && Enabled(p, l, Step(i, at))
    ensures Inv(p, Process(p, l, i, at), after)
    ensures Process(p, l, i, at).calls == l.calls[i := l.calls[i] + 1]
  {
    hide Process, Stocked, Holds, Copied, Stretch;
    var o, t := l.calls[i], Process(p, l, i, at);
    var n := ProcessDoes(p, l, live, i, at);
    after := live[o := at.h];
    QueuedProcess(p, l, live, t, i, at.h);
    hide Queued;
    QueuedIsOrdered(p, t, after);
    StockReplaced(p.inputs, l.mgr, n, live, o, at.h);
    CopiedUpdate(p.inputs, l.calls, i);
  }

  lemma HoldsAt(inputs: seq<seq<byte>>, m: ManagerState, live: map<nat, ResourceId>, o: nat)
    requires Stocked(inputs, m, live) && o in live
    ensures o < |inputs| && Holds(m, live[o], inputs[o])
  {
    hide Holds;
  }

  lemma PushKeeps(p: Plan, l: Line, live: map<nat, ResourceId>, at: Slots) returns (after: map<nat, ResourceId>)
    requires p.Sensible() && Inv(p, l, live) && Enabled(p, l, Step(p.k + 1, at))
    ensures Inv(p, Push(p, l, at), after)
    ensures Push(p, l, at).calls == l.calls[p.k + 1 := l.calls[p.k + 1] + 1]
  {
    hide InvokePush, SinkProgram, TierCapacity, Stocked, Holds, Copied, View.ReadAll, Marshal, Stretch;
    var o, h, t := l.calls[p.k + 1], l.queues[p.k][0], Push(p, l, at);
    StretchPop(l.queues[p.k], o, l.calls[p.k], live);
    var data := p.inputs[o];
    assert data in p.inputs;
    HoldsAt(p.inputs, l.mgr, live, o);
    assert View(l.stores[p.k + 1], l.mgr) == Idle(p.k + 2, p.flow, l.mgr);
    var n := SinkCall(p.k + 2, p.flow, l.mgr, h, data, at);
    assert BytesRead(Marshal(Idle(p.k + 2, p.flow, l.mgr), h, at.input), at.input) == data;
    assert t.mgr == n && t.stores == l.stores && !t.failed;
    after := live - {o};
    QueuedPush(p, l, live, t);
    hide Queued;
    QueuedIsOrdered(p, t, after);
    StockPushed(p.inputs, l.mgr, n, live, o);
    CopiedUpdate(p.inputs, l.calls, p.k + 1);
    assert p.inputs[..o] + [data] == p.inputs[..o + 1];
  }

  // ---------------------------------------------------------------------------
  // Runs
  // ---------------------------------------------------------------------------

  ghost predicate Sound(p: Plan, l: Line) {
    exists live :: Inv(p, l, live)
  }

  /** A freshly spawned flow: nothing allocated, queues empty, the flow registered with the ledger. */
  ghost predicate Fresh(p: Plan, l: Line) {
    && Shaped(p, l)
    && (forall i :: 0 <= i < |l.stores| ==> l.stores[i] == Store(i + 1, p.flow, map[]))
    && (forall j :: 0 <= j < |l.queues| ==> l.queues[j] == [])
    && (forall i :: 0 <= i < |l.calls| ==> l.calls[i] == 0)
    && l.mgr.entries == map[] && l.mgr.budgets == p.budgets
    && p.flow in l.mgr.ledger && l.mgr.ledger[p.flow] == NO_COPIES
    && l.delivered == [] && !l.failed
  }

  lemma HandledNothing(p: Plan, calls: seq<nat>)
    requires forall i :: 0 <= i < |calls| ==> calls[i] == 0
    ensures Sum(calls) == 0 && Sum(Handled(p.inputs, calls)) == 0
  {
    SumConstant(calls, 0);
    SumConstant(Handled(p.inputs, calls), 0);
  }

  lemma NothingCopied(p: Plan, calls: seq<nat>)
    requires |calls| == p.k + 2 && forall i :: 0 <= i < |calls| ==> calls[i] == 0
    ensures Copied(p.inputs, calls) == NO_COPIES
  {
    hide Sum, Handled;
    HandledNothing(p, calls[1..]);
    HandledNothing(p, calls[..p.k + 1]);
  }

  lemma FreshIsSound(p: Plan, l: Line)
    requires Fresh(p, l)
    ensures Sound(p, l)
  {
    hide Copied;
    NothingCopied(p, l.calls);
    assert Inv(p, l, map[]);
  }

  /** No enabled step ever fails, and each counts one more element at its stage. */
  lemma StepKeepsSound(p: Plan, l: Line, step: Step)
    requires p.Sensible() && Sound(p, l) && Enabled(p, l, step)
    ensures Sound(p, Next(p, l, step))
    ensures Next(p, l, step).calls == l.calls[step.stage := l.calls[step.stage] + 1]
  {
    hide Inv, Pull, Process, Push;
    var live :| Inv(p, l, live);
    var after;
    if step.stage == 0 {
      after := PullKeeps(p, l, live, step.at);
    } else if step.stage <= p.k {
      after := ProcessKeeps(p, l, live, step.stage, step.at);
    } else {
      after := PushKeeps(p, l, live, step.at);
    }
  }

  ghost predicate Feasible(p: Plan, l: Line, steps: seq<Step>)
    decreases |steps|
  {
    steps != [] ==> Enabled(p, l, steps[0]) && Feasible(p, Next(p, l, steps[0]), steps[1..])
  }

  ghost function Run(p: Plan, l: Line, steps: seq<Step>): Line
    requires Feasible(p, l, steps)
    decreases |steps|
  {
    if steps == [] then l else Run(p, Next(p, l, steps[0]), steps[1..])
  }

  lemma StepCounts(p: Plan, l: Line, step: Step)
    requires p.Sensible() && Sound(p, l) && Enabled(p, l, step)
    ensures Sound(p, Next(p, l, step)) && Sum(Next(p, l, step).calls) == Sum(l.calls) + 1
  {
    hide Next, Sum, Sound;
    StepKeepsSound(p, l, step);
    SumUpdate(l.calls, step.stage, l.calls[step.stage] + 1);
  }

  lemma {:induction false} RunKeepsSound(p: Plan, l: Line, steps: seq<Step>)
    requires p.Sensible() && Sound(p, l) && Feasible(p, l, steps)
    ensures Sound(p, Run(p, l, steps))
    ensures Sum(Run(p, l, steps).calls) == Sum(l.calls) + |steps|
    decreases |steps|
  {
    hide Next, Sum, Enabled, Sound;
    if steps != [] {
      StepCounts(p, l, steps[0]);
      RunKeepsSound(p, Next(p, l, steps[0]), steps[1..]);
    }
  }

  /** The source has emitted everything and no element is under way. */
  predicate Drained(p: Plan, l: Line) {
    Shaped(p, l) && l.calls[0] == |p.inputs| && forall j :: 0 <= j <= p.k ==> l.queues[j] == []
  }

  lemma DrainedCalls(p: Plan, l: Line)
    requires Sound(p, l) && Drained(p, l)
    ensures forall i :: 0 <= i < |l.calls| ==> l.calls[i] == |p.inputs|
  {
    hide Stocked, Copied;
    var live :| Inv(p, l, live);
    var i := 1;
    while i < |l.calls|
      invariant 1 <= i <= |l.calls|
      invariant forall j :: 0 <= j < i ==> l.calls[j] == |p.inputs|
    {
      assert Stretch(l.queues[i - 1], l.calls[i - 1 + 1], l.calls[i - 1], live);
      i := i + 1;
    }
  }

  /** What the copy ledger must show for `n` elements of `bytes` bytes in all, through `k` processors. */
  function Expected(k: nat, n: nat, bytes: nat): CopyStats {
    CopyStats(2 * (k + 1) * bytes, 2 * (k + 1) * n, (k + 1) * n, (k + 1) * n)
  }

  lemma CopiedByAll(p: Plan, calls: seq<nat>)
    requires |calls| == p.k + 2 && forall i :: 0 <= i < |calls| ==> calls[i] == |p.inputs|
    ensures Copied(p.inputs, calls) == Expected(p.k, |p.inputs|, PrefixBytes(p.inputs, |p.inputs|))
    ensures Sum(calls[..p.k + 1]) == (p.k + 1) * |p.inputs|
  {
    var n := |p.inputs|;
    var ins, outs := calls[1..], calls[..p.k + 1];
    SumConstant(ins, n);
    SumConstant(outs, n);
    SumConstant(Handled(p.inputs, ins), PrefixBytes(p.inputs, n));
    SumConstant(Handled(p.inputs, outs), PrefixBytes(p.inputs, n));
    Twice(p.k + 1, n);
    Twice(p.k + 1, PrefixBytes(p.inputs, n));
  }

  lemma Twice(a: nat, b: nat)
    ensures a * b + a * b == 2 * a * b
  {
  }

  /** In a drained flow the ledger shows exactly 2(k+1) copies per element and of its bytes, no buffer is
      live, every stream has carried every element, and the sink has read what the source wrote, in order. */
  lemma DrainedIsExact(p: Plan, l: Line)
    requires Sound(p, l) && Drained(p, l)
    ensures p.flow in l.mgr.ledger
    ensures l.mgr.ledger[p.flow] == Expected(p.k, |p.inputs|, PrefixBytes(p.inputs, |p.inputs|))
    ensures l.mgr.entries == map[] && l.mgr.budgets == p.budgets
    ensures Sum(l.calls[..p.k + 1]) == (p.k + 1) * |p.inputs|
    ensures l.delivered == p.inputs && !l.failed
  {
    hide Queued, Copied, Expected, Ordered, Holds, Sum;
    DrainedCalls(p, l);
    var live :| Inv(p, l, live);
    CopiedByAll(p, l.calls);
    assert live == map[];
    assert p.inputs[..|p.inputs|] == p.inputs;
  }

  lemma InvBounds(p: Plan, l: Line, live: map<nat, ResourceId>)
    requires Inv(p, l, live)
    ensures Shaped(p, l) && forall i :: 0 <= i < |l.calls| ==> l.calls[i] <= |p.inputs|
    ensures (forall i :: 0 <= i < |l.calls| ==> l.calls[i] == |p.inputs|) ==> Drained(p, l)
  {
    hide Stocked, Copied;
    if forall i :: 0 <= i < |l.calls| ==> l.calls[i] == |p.inputs| {
      forall j | 0 <= j <= p.k
        ensures l.queues[j] == []
      {
        assert Stretch(l.queues[j], l.calls[j + 1], l.calls[j], live);
        assert l.calls[j] == |p.inputs| == l.calls[j + 1];
      }
    }
  }

  lemma DrainedBySum(p: Plan, l: Line)
    requires Sound(p, l)
    ensures Sum(l.calls) <= (p.k + 2) * |p.inputs|
    ensures Drained(p, l) <==> Sum(l.calls) == (p.k + 2) * |p.inputs|
  {
    hide Inv, Sum;
    var live :| Inv(p, l, live);
    InvBounds(p, l, live);
    SumBounded(l.calls, |p.inputs|);
    if Drained(p, l) {
      DrainedCalls(p, l);
      SumConstant(l.calls, |p.inputs|);
    }
  }

  /** A run is drained exactly when it has taken (k+2)N steps; no run is longer. */
  lemma DrainedAfter(p: Plan, l: Line, steps: seq<Step>)
    requires p.Sensible() && Fresh(p, l) && Feasible(p, l, steps)
    ensures |steps| <= (p.k + 2) * |p.inputs|
    ensures Drained(p, Run(p, l, steps)) <==> |steps| == (p.k + 2) * |p.inputs|
  {
    hide Sound, Run, Feasible, Sum, Drained;
    FreshIsSound(p, l);
    SumConstant(l.calls, 0);
    RunKeepsSound(p, l, steps);
    DrainedBySum(p, Run(p, l, steps));
  }

  lemma {:induction false} SumBounded(s: seq<nat>, n: nat)
    requires forall i :: 0 <= i < |s| ==> s[i] <= n
    ensures Sum(s) <= |s| * n
    ensures Sum(s) == |s| * n ==> forall i :: 0 <= i < |s| ==> s[i] == n
  {
    if s != [] {
      SumBounded(s[1..], n);
      assert |s| * n == n + |s[1..]| * n;
      assert forall i :: 1 <= i < |s| ==> s[i] == s[1..][i - 1];
    }
  }

  /** Until the flow is drained some stage can run: the last one with input has an empty queue ahead of it,
      and with no input anywhere the source is not done. */
  lemma NeverStuck(p: Plan, l: Line, at: Slots) returns (stage: nat)
    requires p.Sensible() && Sound(p, l) && !Drained(p, l) && Usable(l.mgr, at)
    ensures Enabled(p, l, Step(stage, at))
  {
    hide Stocked, Copied;
    var live :| Inv(p, l, live);
    stage := p.k + 1;
    while stage > 0 && l.queues[stage - 1] == []
      invariant stage <= p.k + 1
      invariant forall j :: stage <= j <= p.k ==> l.queues[j] == []
    {
      stage := stage - 1;
    }
  }

  lemma {:induction false} AboveAll(ids: set<ResourceId>) returns (n: nat)
    ensures forall h :: h in ids ==> h.index < n
  {
    if ids == {} {
      n := 0;
    } else {
      var h :| h in ids;
      var m := AboveAll(ids - {h});
      n := if m <= h.index then h.index + 1 else m;
      assert forall g :: g in ids ==> g == h || g in ids - {h};
    }
  }

  lemma SomeSlots(m: ManagerState) returns (at: Slots)
    ensures Usable(m, at)
  {
    var n := AboveAll(m.entries.Keys);
    at := Slots(0, 1, 2, ResourceId(n, 1));
  }

  /** From wherever it stands, a flow can be run until it is drained. */
  lemma {:induction false} CanBeDrained(p: Plan, l: Line) returns (steps: seq<Step>)
    requires p.Sensible() && Sound(p, l)
    ensures Feasible(p, l, steps) && Drained(p, Run(p, l, steps))
    decreases (p.k + 2) * |p.inputs| - Sum(l.calls)
  {
    hide Sound, Sum, Drained, Enabled, Next, Plan.Sensible;
    DrainedBySum(p, l);
    if Drained(p, l) {
      steps := [];
    } else {
      var at := SomeSlots(l.mgr);
      var stage := NeverStuck(p, l, at);
      var step := Step(stage, at);
      StepCounts(p, l, step);
      DrainedBySum(p, Next(p, l, step));
      var rest := CanBeDrained(p, Next(p, l, step));
      steps := [step] + rest;
      assert steps[1..] == rest;
    }
  }

  // ---------------------------------------------------------------------------
  // The benchmark's statement of the law
  // ---------------------------------------------------------------------------

  datatype Shape = SourceSink | SourceProcessorSink
  {
    function Processors(): nat {
      if SourceSink? then 0 else 1
    }

    function CopiesPerElement(): nat {
      if SourceSink? then 2 else 4
    }

    function StreamCount(): nat {
      if SourceSink? then 1 else 2
    }
  }

  datatype RunSpec = RunSpec(shape: Shape, elements: nat, payloadBytes: nat)
  {
    function ExpectedCopyOps(): nat {
      shape.CopiesPerElement() * elements
    }

    function ExpectedPayloadBytes(): nat {
      ExpectedCopyOps() * payloadBytes
    }

    function ExpectedStreamElements(): nat {
      elements * shape.StreamCount()
    }
  }

  const SEQUENCE_BYTES: nat := 8
  const FILLER: byte := 0xA5

  function LittleEndian(n: nat, width: nat): (bytes: seq<byte>)
    ensures |bytes| == width
  {
    if width == 0 then [] else [(n % 256) as byte] + LittleEndian(n / 256, width - 1)
  }

  function Fillers(n: nat): (bytes: seq<byte>)
    ensures |bytes| == n
  {
    seq(n, _ => FILLER)
  }

  function Clamp(n: nat, lo: nat, hi: nat): nat
    requires lo <= hi
  {
    if n < lo then lo else if n > hi then hi else n
  }

  /** The echo source's payload by number: the number, then filler up to the configured size, which `init`
      brings into the range from the width of the number to the largest buffer. */
  function EchoPayload(number: nat, payloadBytes: nat): (data: seq<byte>)
    ensures |data| == Clamp(payloadBytes, SEQUENCE_BYTES, MAX_BUFFER_SIZE)
  {
    LittleEndian(number, SEQUENCE_BYTES) + Fillers(Clamp(payloadBytes, SEQUENCE_BYTES, MAX_BUFFER_SIZE) - SEQUENCE_BYTES)
  }

  /** The number that bytes, least first, stand for. */
  function NumberOf(bytes: seq<byte>): nat {
    if bytes == [] then 0 else bytes[0] as nat + 256 * NumberOf(bytes[1..])
  }

  function PowerOf256(width: nat): nat {
    if width == 0 then 1 else 256 * PowerOf256(width - 1)
  }

  lemma {:induction false} LittleEndianSays(n: nat, width: nat)
    requires n < PowerOf256(width)
    ensures NumberOf(LittleEndian(n, width)) == n
    decreases width
  {
    if width > 0 {
      LittleEndianSays(n / 256, width - 1);
    }
  }

  /** An echo payload says its number in its first eight bytes, and the rest is filler. */
  lemma EchoIsNumbered(number: nat, payloadBytes: nat)
    requires number < 0x1_0000_0000_0000_0000
    ensures var data := EchoPayload(number, payloadBytes);
            && |data| >= 8 && NumberOf(data[..8]) == number && forall i :: 8 <= i < |data| ==> data[i] == 0xA5
  {
    hide LittleEndian, NumberOf;
    assert PowerOf256(8) == 0x1_0000_0000_0000_0000;
    LittleEndianSays(number, 8);
    assert EchoPayload(number, payloadBytes)[..8] == LittleEndian(number, 8);
  }

  function EchoInputs(spec: RunSpec, n: nat): (inputs: seq<seq<byte>>)
    ensures |inputs| == n
    ensures forall x :: x in inputs ==> |x| == Clamp(spec.payloadBytes, SEQUENCE_BYTES, MAX_BUFFER_SIZE)
  {
    if n == 0 then [] else EchoInputs(spec, n - 1) + [EchoPayload(n - 1, spec.payloadBytes)]
  }

  lemma {:induction false} EqualSizes(inputs: seq<seq<byte>>, n: nat, size: nat)
    requires n <= |inputs| && forall x :: x in inputs ==> |x| == size
    ensures PrefixBytes(inputs, n) == n * size
  {
    if n > 0 {
      EqualSizes(inputs, n - 1, size);
      assert inputs[n - 1] in inputs;
    }
  }

  lemma SpecOfShape(spec: RunSpec, size: nat)
    ensures var e := Expected(spec.shape.Processors(), spec.elements, spec.elements * size);
            && e.copyOps == spec.ExpectedCopyOps()
            && (e.payloadBytes == spec.ExpectedPayloadBytes() <==> spec.elements == 0 || size == spec.payloadBytes)
    ensures (spec.shape.Processors() + 1) * spec.elements == spec.ExpectedStreamElements()
  {
    var c := spec.shape.CopiesPerElement();
    assert c == 2 * (spec.shape.Processors() + 1);
    BytesAgree(c, spec.elements, size, spec.payloadBytes);
  }

  lemma ValidateDrained(spec: RunSpec, p: Plan, t: Line)
    requires p.k == spec.shape.Processors() && p.inputs == EchoInputs(spec, spec.elements)
    requires Sound(p, t) && Drained(p, t)
    ensures p.flow in t.mgr.ledger && t.mgr.ledger[p.flow].copyOps == spec.ExpectedCopyOps()
    ensures Sum(t.calls[..p.k + 1]) == spec.ExpectedStreamElements()
    ensures t.mgr.entries == map[]
    ensures t.mgr.ledger[p.flow].payloadBytes == spec.ExpectedPayloadBytes() <==>
            spec.elements == 0 || 8 <= spec.payloadBytes <= 16 * 1024 * 1024
  {
    hide Sound, Sum, Expected, Shape.Processors, RunSpec.ExpectedCopyOps, RunSpec.ExpectedPayloadBytes,
      RunSpec.ExpectedStreamElements, EchoInputs;
    DrainedIsExact(p, t);
    hide Drained;
    var size := Clamp(spec.payloadBytes, SEQUENCE_BYTES, MAX_BUFFER_SIZE);
    EqualSizes(p.inputs, |p.inputs|, size);
    SpecOfShape(spec, size);
  }

  /** The numbers `validate` asserts of a run, whatever the interleaving: element and copy counts always
      come out, the byte total exactly when there are no elements or the configured payload size is one the
      echo source does not clamp. */
  lemma ValidateHolds(spec: RunSpec, p: Plan, l: Line, steps: seq<Step>)
    requires p.k == spec.shape.Processors() && p.inputs == EchoInputs(spec, spec.elements)
    requires p.Sensible() && Fresh(p, l) && Feasible(p, l, steps) && Drained(p, Run(p, l, steps))
    ensures var t := Run(p, l, steps);
            && p.flow in t.mgr.ledger
            && t.mgr.ledger[p.flow].copyOps == spec.ExpectedCopyOps()
            && Sum(t.calls[..p.k + 1]) == spec.ExpectedStreamElements()
            && t.mgr.entries == map[]
            && (t.mgr.ledger[p.flow].payloadBytes == spec.ExpectedPayloadBytes() <==>
                  spec.elements == 0 || 8 <= spec.payloadBytes <= 16 * 1024 * 1024)
  {
    hide *;
    FreshIsSound(p, l);
    RunKeepsSound(p, l, steps);
    ValidateDrained(spec, p, Run(p, l, steps));
  }

  lemma ShortPayloadDrained(p: Plan, t: Line)
    requires p.k == 0 && p.inputs == EchoInputs(RunSpec(SourceSink, 1, 7), 1) && Sound(p, t) && Drained(p, t)
    ensures p.flow in t.mgr.ledger && t.mgr.ledger[p.flow].payloadBytes == 16
  {
    hide Sound, Drained, EchoInputs;
    DrainedIsExact(p, t);
    EqualSizes(p.inputs, 1, 8);
  }

  /** One element of seven bytes: the law says fourteen bytes are copied, every drained run copies sixteen. */
  lemma ShortPayloadBreaksTheLaw(p: Plan, l: Line, steps: seq<Step>)
    requires p.k == 0 && p.inputs == EchoInputs(RunSpec(SourceSink, 1, 7), 1)
    requires p.Sensible() && Fresh(p, l) && Feasible(p, l, steps) && Drained(p, Run(p, l, steps))
    ensures RunSpec(SourceSink, 1, 7).ExpectedPayloadBytes() == 14
    ensures p.flow in Run(p, l, steps).mgr.ledger && Run(p, l, steps).mgr.ledger[p.flow].payloadBytes == 16
  {
    hide Sound, Run, Feasible, Drained, Fresh, EchoInputs, Plan.Sensible;
    FreshIsSound(p, l);
    RunKeepsSound(p, l, steps);
    ShortPayloadDrained(p, Run(p, l, steps));
  }

  /** Every configuration of the benchmark, with any positive queue capacity, has a run that drains it: the laws
      above speak of runs that exist. */
  lemma EverySpecCanBeRun(spec: RunSpec, capacity: nat) returns (p: Plan, l: Line, steps: seq<Step>)
    requires capacity > 0
    ensures p.k == spec.shape.Processors() && p.inputs == EchoInputs(spec, spec.elements) && p.capacity == capacity
    ensures p.Sensible() && Fresh(p, l) && Feasible(p, l, steps) && Drained(p, Run(p, l, steps))
  {
    hide Run, Feasible, Drained, EchoInputs;
    var k := spec.shape.Processors();
    p := Plan(k, 1, capacity, EchoInputs(spec, spec.elements), map[]);
    l := Line(
      ManagerState(map[], map[], map[], map[], map[1 := NO_COPIES]),
      seq(k + 2, i requires 0 <= i => Store(i + 1, 1, map[])), seq(k + 1, _ => []), seq(k + 2, _ => 0), [], false);
    FreshIsSound(p, l);
    steps := CanBeDrained(p, l);
  }

  /** A run on which the law fails. */
  lemma ShortPayloadRuns() returns (p: Plan, l: Line, steps: seq<Step>)
    ensures p.inputs == EchoInputs(RunSpec(SourceSink, 1, 7), 1) && Fresh(p, l) && Feasible(p, l, steps) && Drained(p, Run(p, l, steps))
    ensures p.flow in Run(p, l, steps).mgr.ledger
    ensures Run(p, l, steps).mgr.ledger[p.flow].payloadBytes == 16 && RunSpec(SourceSink, 1, 7).ExpectedPayloadBytes() == 14
  {
    hide Run, Feasible, Drained, EchoInputs, Fresh, Plan.Sensible;
    p, l, steps := EverySpecCanBeRun(RunSpec(SourceSink, 1, 7), 1);
    ShortPayloadBreaksTheLaw(p, l, steps);
  }

  lemma BytesAgree(c: nat, n: nat, size: nat, asked: nat)
    requires c > 0
    ensures c * (n * size) == c * n * asked <==> n == 0 || size == asked
  {
    if n > 0 {
      assert c * n > 0;
      assert c * (n * size) == (c * n) * size;
    }
  }
}
