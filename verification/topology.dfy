/** The pipeline graph of `torvyn-linker/src/topology.rs`: its validation and Kahn's ordering. */
module Topology {
  import opened Wrappers
  import opened CycleSearch
  import opened PipelineValidation

  datatype Node = Node(role: Role, grants: seq<string>)

  datatype Edge = Edge(from: string, fromPort: string, to: string, toPort: string, queueDepth: nat)

  datatype Graph = Graph(name: string, nodes: map<string, Node>, edges: seq<Edge>, maxFanOut: nat, maxFanIn: nat)

  function Connections(edges: seq<Edge>): (cs: seq<Connection>)
    ensures |cs| == |edges| && forall i :: 0 <= i < |edges| ==> cs[i] == Connection(edges[i].from, edges[i].to)
  {
    if edges == [] then [] else [Connection(edges[0].from, edges[0].to)] + Connections(edges[1..])
  }

  function AdjacencyOf(g: Graph): map<string, seq<string>> {
    Adjacency(Connections(g.edges))
  }

  lemma AdjacencyIsEdges(g: Graph, a: string, b: string)
    ensures b in Successors(AdjacencyOf(g), a) <==> exists e :: e in g.edges && e.from == a && e.to == b
  {
    AdjacencyIsConnections(Connections(g.edges));
    if Connection(a, b) in Connections(g.edges) {
      var i :| 0 <= i < |g.edges| && Connections(g.edges)[i] == Connection(a, b);
      assert g.edges[i] in g.edges;
    }
    forall e | e in g.edges && e.from == a && e.to == b
      ensures Connection(a, b) in Connections(g.edges)
    {
      var i :| 0 <= i < |g.edges| && g.edges[i] == e;
      assert Connections(g.edges)[i] == Connection(a, b);
    }
  }

  predicate EdgesKnown(g: Graph) {
    forall e :: e in g.edges ==> e.from in g.nodes && e.to in g.nodes
  }

  ghost predicate NoCycle(g: Graph) {
    forall n :: n in g.nodes ==> !CycleFrom(AdjacencyOf(g), n)
  }

  // ---------------------------------------------------------------------------
  // Kahn's algorithm
  // ---------------------------------------------------------------------------

  /** The edges among the first `k` that lead to `n` from a node not in `done`. */
  function Waiting(edges: seq<Edge>, k: nat, n: string, done: seq<string>): nat
    requires k <= |edges|
  {
    if k == 0 then 0
    else Waiting(edges, k - 1, n, done) + if edges[k - 1].to == n && edges[k - 1].from !in done then 1 else 0
  }

  lemma {:induction false} WaitingZero(edges: seq<Edge>, k: nat, n: string, done: seq<string>)
    requires k <= |edges|
    ensures Waiting(edges, k, n, done) == 0 <==> forall i :: 0 <= i < k && edges[i].to == n ==> edges[i].from in done
  {
    if k > 0 {
      WaitingZero(edges, k - 1, n, done);
    }
  }

  /** Handling one more node takes its edges off, one by one. */
  function Handled(edges: seq<Edge>, k: nat, n: string, node: string): nat
    requires k <= |edges|
  {
    if k == 0 then 0
    else Handled(edges, k - 1, n, node) + if edges[k - 1].to == n && edges[k - 1].from == node then 1 else 0
  }

  lemma {:induction false} WaitingSplits(edges: seq<Edge>, k: nat, n: string, done: seq<string>, node: string)
    requires k <= |edges| && node !in done
    ensures Waiting(edges, k, n, done) == Waiting(edges, k, n, done + [node]) + Handled(edges, k, n, node)
  {
    if k > 0 {
      WaitingSplits(edges, k - 1, n, done, node);
    }
  }

  lemma {:induction false} HandledGrows(edges: seq<Edge>, j: nat, k: nat, n: string, node: string)
    requires j <= k <= |edges|
    ensures Handled(edges, j, n, node) <= Handled(edges, k, n, node)
    decreases k
  {
    if j < k {
      HandledGrows(edges, j, k - 1, n, node);
    }
  }

  /** Every edge into a listed node comes from an earlier one. */
  ghost predicate Topological(edges: seq<Edge>, order: seq<string>) {
    forall i :: 0 <= i < |order| ==> forall e :: e in edges && e.to == order[i] ==> e.from in order[..i]
  }

  ghost predicate IsOrderOf(g: Graph, order: seq<string>) {
    Topological(g.edges, order) && Distinct(order) && forall n :: n in order <==> n in g.nodes
  }

  method CountIncoming(g: Graph) returns (inDegree: map<string, nat>)
    ensures inDegree.Keys == g.nodes.Keys
    ensures forall n :: n in inDegree ==> inDegree[n] == Waiting(g.edges, |g.edges|, n, [])
  {
    inDegree := map n | n in g.nodes :: 0;
    for k := 0 to |g.edges|
      invariant inDegree.Keys == g.nodes.Keys
      invariant forall n :: n in inDegree ==> inDegree[n] == Waiting(g.edges, k, n, [])
    {
      var to := g.edges[k].to;
      if to in inDegree {
        inDegree := inDegree[to := inDegree[to] + 1];
      }
    }
  }

  /** The nodes a hash map yields, in some order. */
  method Listed(s: set<string>) returns (q: seq<string>)
    ensures Distinct(q) && forall n :: n in q <==> n in s
  {
    q := [];
    var todo := s;
    while todo != {}
      invariant todo <= s && Distinct(q)
      invariant forall n :: n in q <==> n in s && n !in todo
      decreases |todo|
    {
      var n :| n in todo;
      q, todo := q + [n], todo - {n};
    }
  }

  lemma {:induction false} DistinctFits(q: seq<string>, s: set<string>)
    requires Distinct(q) && forall n :: n in q ==> n in s
    ensures |q| <= |s|
    ensures |q| == |s| <==> forall n :: n in s ==> n in q
    decreases |q|
  {
    if q == [] {
      if s != {} {
        var n :| n in s;
        assert n !in q;
      }
    } else {
      var last, front := q[|q| - 1], q[..|q| - 1];
      assert forall n :: n in front ==> n in q;
      DistinctFits(front, s - {last});
      assert q == front + [last];
    }
  }

  /** Waiting counts before the edges of `node` are taken off, and the `k` edges already looked at. */
  ghost predicate Counting(g: Graph, inDegree: map<string, nat>, order: seq<string>, node: string, k: nat)
    requires k <= |g.edges|
  {
    forall n :: n in inDegree ==> inDegree[n] + Handled(g.edges, k, n, node) == Waiting(g.edges, |g.edges|, n, order)
  }

  ghost predicate Listing(g: Graph, inDegree: map<string, nat>, listed: seq<string>) {
    && inDegree.Keys == g.nodes.Keys
    && Distinct(listed)
    && forall n :: n in listed <==> n in g.nodes && inDegree[n] == 0
  }

  lemma EdgeStillCounted(g: Graph, order: seq<string>, node: string, k: nat, n: string)
    requires k < |g.edges| && node !in order && g.edges[k].to == n && g.edges[k].from == node
    ensures Handled(g.edges, k, n, node) + 1 <= Waiting(g.edges, |g.edges|, n, order)
  {
    WaitingSplits(g.edges, |g.edges|, n, order, node);
    HandledGrows(g.edges, k + 1, |g.edges|, n, node);
  }

  /** The edges of one node are taken off; what then waits for nothing more joins the queue. */
  method TakeOff(g: Graph, inDegree: map<string, nat>, ghost order: seq<string>, node: string, queue: seq<string>)
    returns (degrees: map<string, nat>, ready: seq<string>)
    requires node !in order && Listing(g, inDegree, order + [node] + queue)
    requires Counting(g, inDegree, order, node, 0)
    ensures Listing(g, degrees, order + [node] + ready)
    ensures Counting(g, degrees, order, node, |g.edges|)
  {
    hide Waiting, Distinct;
    degrees, ready := inDegree, queue;
    for k := 0 to |g.edges|
      invariant Listing(g, degrees, order + [node] + ready)
      invariant Counting(g, degrees, order, node, k)
    {
      var e := g.edges[k];
      if e.from == node && e.to in degrees {
        EdgeStillCounted(g, order, node, k, e.to);
        degrees := degrees[e.to := degrees[e.to] - 1];
        if degrees[e.to] == 0 {
          DistinctGrows(order + [node] + ready, e.to);
          assert order + [node] + (ready + [e.to]) == order + [node] + ready + [e.to];
          ready := ready + [e.to];
        }
      }
    }
  }

  lemma DistinctGrows(q: seq<string>, n: string)
    requires Distinct(q) && n !in q
    ensures Distinct(q + [n])
  {
  }

  lemma TopologicalGrows(edges: seq<Edge>, order: seq<string>, n: string)
    requires Topological(edges, order) && Waiting(edges, |edges|, n, order) == 0
    ensures Topological(edges, order + [n])
  {
    WaitingZero(edges, |edges|, n, order);
    var longer := order + [n];
    forall i, e | 0 <= i < |longer| && e in edges && e.to == longer[i]
      ensures e.from in longer[..i]
    {
      if i < |order| {
        assert longer[i] == order[i] && longer[..i] == order[..i];
      } else {
        assert longer[..i] == order;
        var k :| 0 <= k < |edges| && edges[k] == e;
      }
    }
  }

  lemma CountsAfter(g: Graph, degrees: map<string, nat>, order: seq<string>, node: string)
    requires node !in order && Counting(g, degrees, order, node, |g.edges|)
    ensures forall n :: n in degrees ==> degrees[n] == Waiting(g.edges, |g.edges|, n, order + [node])
  {
    forall n | n in degrees
      ensures degrees[n] == Waiting(g.edges, |g.edges|, n, order + [node])
    {
      WaitingSplits(g.edges, |g.edges|, n, order, node);
    }
  }

  lemma CountsBefore(g: Graph, degrees: map<string, nat>, order: seq<string>, node: string)
    requires forall n :: n in degrees ==> degrees[n] == Waiting(g.edges, |g.edges|, n, order)
    ensures Counting(g, degrees, order, node, 0)
  {
  }

  lemma QueueHead(order: seq<string>, queue: seq<string>)
    requires Distinct(order + queue) && queue != []
    ensures order + queue == order + [queue[0]] + queue[1..]
    ensures queue[0] !in order && queue[0] in order + queue
  {
    assert (order + queue)[|order|] == queue[0];
    assert forall i :: 0 <= i < |order| ==> (order + queue)[i] == order[i];
  }

  /** Some order exactly when no node is left waiting, and then it is a topological order of all nodes. */
  method TopologicalOrder(g: Graph) returns (r: Option<seq<string>>)
    ensures r.Some? ==> IsOrderOf(g, r.value)
    ensures EdgesKnown(g) ==> (r.Some? <==> NoCycle(g))
  {
    hide Waiting, Distinct, Topological, NoCycle;
    var inDegree := CountIncoming(g);
    var order: seq<string> := [];
    var queue := Listed(set n | n in inDegree && inDegree[n] == 0);
    assert order + queue == queue;
    TopologicalOfNothing(g.edges);
    while queue != []
      invariant Listing(g, inDegree, order + queue)
      invariant forall n :: n in inDegree ==> inDegree[n] == Waiting(g.edges, |g.edges|, n, order)
      invariant Topological(g.edges, order)
      invariant |order| <= |g.nodes|
      decreases |g.nodes| - |order|
    {
      var node := queue[0];
      QueueHead(order, queue);
      CountsBefore(g, inDegree, order, node);
      TopologicalGrows(g.edges, order, node);
      inDegree, queue := TakeOff(g, inDegree, order, node, queue[1..]);
      CountsAfter(g, inDegree, order, node);
      order := order + [node];
      ListedFits(g, inDegree, order, queue);
    }
    assert order + queue == order;
    DistinctFits(order, g.nodes.Keys);
    if EdgesKnown(g) {
      if |order| == |g.nodes| {
        OrderedHasNoCycle(g, order);
      } else {
        StuckHasCycle(g, order);
      }
    }
    return if |order| == |g.nodes| then Some(order) else None;
  }

  lemma TopologicalOfNothing(edges: seq<Edge>)
    ensures Topological(edges, [])
  {
  }

  lemma ListedFits(g: Graph, inDegree: map<string, nat>, order: seq<string>, queue: seq<string>)
    requires Listing(g, inDegree, order + queue)
    ensures |order| <= |g.nodes|
  {
    assert forall n :: n in order + queue ==> n in g.nodes.Keys;
    DistinctFits(order + queue, g.nodes.Keys);
  }

  /** Along a walk positions rise: all but the last node come before it. */
  lemma {:induction false} WalksGoUp(g: Graph, order: seq<string>, w: seq<string>, i: nat)
    requires Topological(g.edges, order) && Walk(AdjacencyOf(g), w) && w != [] && i < |order| && order[i] == w[|w| - 1]
    ensures forall x :: x in w[..|w| - 1] ==> x in order[..i]
    decreases |w|
  {
    hide AdjacencyOf, Successors;
    if |w| > 1 {
      var front, last := w[..|w| - 1], w[|w| - 1];
      assert w[|w| - 2 + 1] in Successors(AdjacencyOf(g), w[|w| - 2]);
      AdjacencyIsEdges(g, w[|w| - 2], last);
      assert w[|w| - 2] in order[..i];
      var j :| 0 <= j < i && order[j] == front[|front| - 1];
      assert Walk(AdjacencyOf(g), front) by {
        forall k | 0 <= k < |front| - 1
          ensures front[k + 1] in Successors(AdjacencyOf(g), front[k])
        {
          assert w[k + 1] in Successors(AdjacencyOf(g), w[k]);
        }
      }
      WalksGoUp(g, order, front, j);
      assert forall x :: x in order[..j] ==> x in order[..i];
      assert front == front[..|front| - 1] + [front[|front| - 1]];
    }
  }

  lemma OrderedHasNoCycle(g: Graph, order: seq<string>)
    requires EdgesKnown(g) && IsOrderOf(g, order)
    ensures NoCycle(g)
  {
    hide AdjacencyOf, Successors;
    forall w | Walk(AdjacencyOf(g), w) && |w| >= 2
      ensures w[|w| - 1] !in w[..|w| - 1]
    {
      var last := w[|w| - 1];
      assert w[|w| - 2 + 1] in Successors(AdjacencyOf(g), w[|w| - 2]);
      AdjacencyIsEdges(g, w[|w| - 2], last);
      var i := FirstAt(order, last);
      WalksGoUp(g, order, w, i);
    }
  }

  predicate ComesFrom(edges: seq<Edge>, n: string, s: set<string>) {
    exists e :: e in edges && e.to == n && e.from in s
  }

  lemma WalkPrepends(adj: map<string, seq<string>>, n: string, w: seq<string>)
    requires Walk(adj, w) && w != [] && w[0] in Successors(adj, n)
    ensures Walk(adj, [n] + w)
  {
    forall i | 0 <= i < |w|
      ensures ([n] + w)[i + 1] in Successors(adj, ([n] + w)[i])
    {
      if i > 0 {
        assert w[i - 1 + 1] in Successors(adj, w[i - 1]);
      }
    }
  }

  /** In a set where every node has a predecessor, walks can be made as long as wanted. */
  lemma {:induction false} BackWalk(g: Graph, stuck: set<string>, len: nat) returns (w: seq<string>)
    requires stuck != {} && forall n :: n in stuck ==> ComesFrom(g.edges, n, stuck)
    ensures Walk(AdjacencyOf(g), w) && |w| == len && forall n :: n in w ==> n in stuck
  {
    hide AdjacencyOf, Successors, ComesFrom;
    if len == 0 {
      w := [];
    } else if len == 1 {
      var n :| n in stuck;
      w := [n];
    } else {
      var tail := BackWalk(g, stuck, len - 1);
      assert tail[0] in stuck;
      var before := Predecessor(g, tail[0], stuck);
      WalkPrepends(AdjacencyOf(g), before, tail);
      w := [before] + tail;
    }
  }

  lemma Predecessor(g: Graph, n: string, s: set<string>) returns (before: string)
    requires ComesFrom(g.edges, n, s)
    ensures before in s && n in Successors(AdjacencyOf(g), before)
  {
    hide AdjacencyOf, Successors;
    var e :| e in g.edges && e.to == n && e.from in s;
    AdjacencyIsEdges(g, e.from, n);
    before := e.from;
  }

  /** A walk that repeats a node holds a cycle. */
  lemma RepeatIsCycle(adj: map<string, seq<string>>, w: seq<string>, i: nat, j: nat)
    requires Walk(adj, w) && i < j < |w| && w[i] == w[j]
    ensures CycleFrom(adj, w[i])
  {
    var cycle := w[i..j + 1];
    forall k | 0 <= k < |cycle| - 1
      ensures cycle[k + 1] in Successors(adj, cycle[k])
    {
      assert w[i + k + 1] in Successors(adj, w[i + k]);
    }
    assert cycle[|cycle| - 1] == cycle[..|cycle| - 1][0];
  }

  lemma StuckHasCycle(g: Graph, order: seq<string>)
    requires EdgesKnown(g)
    requires exists n :: n in g.nodes && n !in order
    requires forall n :: n in g.nodes && n !in order ==> Waiting(g.edges, |g.edges|, n, order) > 0
    ensures !NoCycle(g)
  {
    hide AdjacencyOf, CycleFrom, Walk, ComesFrom, Waiting, Distinct;
    var stuck := set n | n in g.nodes && n !in order;
    var first :| first in g.nodes && first !in order;
    assert first in stuck;
    forall n | n in stuck
      ensures ComesFrom(g.edges, n, stuck)
    {
      StillWaiting(g, order, stuck, n);
    }
    var w := BackWalk(g, stuck, |stuck| + 1);
    var i, j := Repeats(w, stuck);
    RepeatIsCycle(AdjacencyOf(g), w, i, j);
    assert w[i] in w;
  }

  lemma StillWaiting(g: Graph, order: seq<string>, stuck: set<string>, n: string)
    requires EdgesKnown(g) && Waiting(g.edges, |g.edges|, n, order) > 0
    requires forall m :: m in g.nodes && m !in order ==> m in stuck
    ensures ComesFrom(g.edges, n, stuck)
  {
    WaitingZero(g.edges, |g.edges|, n, order);
    var i :| 0 <= i < |g.edges| && g.edges[i].to == n && g.edges[i].from !in order;
    assert g.edges[i] in g.edges;
  }

  /** More entries than there are values repeat one. */
  lemma Repeats(w: seq<string>, s: set<string>) returns (i: nat, j: nat)
    requires |w| > |s| && forall n :: n in w ==> n in s
    ensures i < j < |w| && w[i] == w[j]
  {
    if Distinct(w) {
      DistinctFits(w, s);
      assert false;
    }
    i, j :| 0 <= i < j < |w| && w[i] == w[j];
  }

  // ---------------------------------------------------------------------------
  // Validation
  // ---------------------------------------------------------------------------

  datatype LinkError =
    | EmptyName | NoNodes | UnknownNode(name: string) | DisconnectedNode(name: string) | RoleViolation(name: string)
    | CyclicDependency(path: seq<string>) | FanLimit(outgoing: bool, name: string, port: string)
    | UnresolvedImport(component: string, wanted: string)
    | AmbiguousProvider(component: string, wanted: string)
    | CapabilityDenied(component: string, wanted: string, capability: string)

  ghost predicate EveryNodeConnected(g: Graph) {
    forall n :: n in g.nodes ==> NodeConnected(g, n)
  }

  ghost predicate NodeRolesRespected(g: Graph) {
    forall n :: n in g.nodes ==> NodeRoleRespected(g, n)
  }

  ghost predicate NodeRoleRespected(g: Graph, n: string)
    requires n in g.nodes
  {
    && (g.nodes[n].role == Source ==> !exists e :: e in g.edges && e.to == n)
    && (g.nodes[n].role == Sink ==> !exists e :: e in g.edges && e.from == n)
  }

  /** The edge uses the port of the node: leaving from it, or arriving at it. */
  ghost predicate Uses(e: Edge, outgoing: bool, port: (string, string)) {
    if outgoing then e.from == port.0 && e.fromPort == port.1 else e.to == port.0 && e.toPort == port.1
  }

  /** How many edges use a port of a node. */
  ghost function Fan(edges: seq<Edge>, outgoing: bool, port: (string, string)): nat {
    |set i | 0 <= i < |edges| && Uses(edges[i], outgoing, port)|
  }

  lemma FanGrows(edges: seq<Edge>, outgoing: bool, e: Edge, port: (string, string))
    ensures Fan([], outgoing, port) == 0
    ensures Fan(edges + [e], outgoing, port) == Fan(edges, outgoing, port) + if Uses(e, outgoing, port) then 1 else 0
  {
    var before := set i | 0 <= i < |edges| && Uses(edges[i], outgoing, port);
    var longer := edges + [e];
    var after := set i | 0 <= i < |longer| && Uses(longer[i], outgoing, port);
    assert after == if Uses(e, outgoing, port) then before + {|edges|} else before;
  }

  ghost predicate FanWithin(edges: seq<Edge>, outgoing: bool, limit: nat) {
    forall port :: Fan(edges, outgoing, port) <= limit
  }

  ghost predicate ValidGraph(g: Graph) {
    && g.name != "" && g.nodes != map[]
    && EdgesKnown(g) && EveryNodeConnected(g) && NodeRolesRespected(g) && NoCycle(g)
    && FanWithin(g.edges, true, g.maxFanOut) && FanWithin(g.edges, false, g.maxFanIn)
  }

  /** What an error of the validation says of the graph. */
  ghost predicate Faulty(g: Graph, e: LinkError) {
    match e
    case EmptyName => g.name == ""
    case NoNodes => g.nodes == map[]
    case UnknownNode(n) => n !in g.nodes && NodeConnected(g, n)
    case DisconnectedNode(n) => n in g.nodes && !NodeConnected(g, n)
    case RoleViolation(n) => n in g.nodes && !NodeRoleRespected(g, n)
    case CyclicDependency(path) => SimpleCycle(AdjacencyOf(g), path)
    case FanLimit(outgoing, n, port) => Fan(g.edges, outgoing, (n, port)) > if outgoing then g.maxFanOut else g.maxFanIn
    case _ => false
  }

  method UnknownNodes(g: Graph) returns (errors: seq<LinkError>)
    ensures errors == [] <==> EdgesKnown(g)
    ensures forall e :: e in errors <==> e.UnknownNode? && Faulty(g, e)
  {
    errors := [];
    for i := 0 to |g.edges|
      invariant errors == [] <==> forall k :: 0 <= k < i ==> g.edges[k].from in g.nodes && g.edges[k].to in g.nodes
      invariant forall e :: e in errors <==>
                  e.UnknownNode? && e.name !in g.nodes && exists k :: 0 <= k < i && (g.edges[k].from == e.name || g.edges[k].to == e.name)
    {
      if g.edges[i].from !in g.nodes {
        errors := errors + [UnknownNode(g.edges[i].from)];
      }
      if g.edges[i].to !in g.nodes {
        errors := errors + [UnknownNode(g.edges[i].to)];
      }
    }
  }

  ghost predicate NodeConnected(g: Graph, n: string) {
    exists e :: e in g.edges && (e.from == n || e.to == n)
  }

  /** The nodes that edges leave from, and those they arrive at. */
  method EdgeEnds(edges: seq<Edge>) returns (leaving: set<string>, arriving: set<string>)
    ensures forall n :: n in leaving <==> exists e :: e in edges && e.from == n
    ensures forall n :: n in arriving <==> exists e :: e in edges && e.to == n
  {
    leaving, arriving := {}, {};
    for i := 0 to |edges|
      invariant forall n :: n in leaving <==> exists e :: e in edges[..i] && e.from == n
      invariant forall n :: n in arriving <==> exists e :: e in edges[..i] && e.to == n
    {
      assert edges[..i + 1] == edges[..i] + [edges[i]];
      leaving, arriving := leaving + {edges[i].from}, arriving + {edges[i].to};
    }
    assert edges[..|edges|] == edges;
  }

  lemma EndsDecide(g: Graph, n: string, leaving: set<string>, arriving: set<string>)
    requires n in g.nodes
    requires n in leaving <==> exists e :: e in g.edges && e.from == n
    requires n in arriving <==> exists e :: e in g.edges && e.to == n
    ensures NodeConnected(g, n) <==> n in leaving || n in arriving
    ensures !NodeRoleRespected(g, n) <==> (g.nodes[n].role == Source && n in arriving) || (g.nodes[n].role == Sink && n in leaving)
  {
  }

  /** The checks made of each node, in the order the map yields them. */
  method NodeErrors(g: Graph) returns (errors: seq<LinkError>)
    ensures errors == [] <==> EveryNodeConnected(g) && NodeRolesRespected(g)
    ensures forall e :: e in errors <==> (e.DisconnectedNode? || e.RoleViolation?) && Faulty(g, e)
  {
    hide NodeRoleRespected, NodeConnected, Distinct;
    var leaving, arriving := EdgeEnds(g.edges);
    var nodes := Listed(g.nodes.Keys);
    errors := [];
    for i := 0 to |nodes|
      invariant errors == [] <==> forall k :: 0 <= k < i ==> NodeConnected(g, nodes[k]) && NodeRoleRespected(g, nodes[k])
      invariant forall e :: e in errors <==> (e.DisconnectedNode? || e.RoleViolation?) && e.name in nodes[..i] && Faulty(g, e)
    {
      var n := nodes[i];
      EndsDecide(g, n, leaving, arriving);
      if n !in leaving && n !in arriving {
        errors := errors + [DisconnectedNode(nodes[i])];
      }
      if (g.nodes[n].role == Source && n in arriving) || (g.nodes[n].role == Sink && n in leaving) {
        errors := errors + [RoleViolation(nodes[i])];
      }
    }
    assert forall k :: 0 <= k < |nodes| ==> nodes[k] in g.nodes;
    assert forall n :: n in g.nodes ==> n in nodes;
  }

  /** At most one cycle is reported, and the reported path is one: `dfs_cycle` cuts it out of the search's
      path. */
  method CycleErrors(g: Graph) returns (errors: seq<LinkError>)
    ensures errors == [] <==> NoCycle(g)
    ensures |errors| <= 1 && forall e :: e in errors ==> e.CyclicDependency? && Faulty(g, e)
  {
    hide CycleFrom, PostOrder, Reachable, Adjacency, Distinct, SimpleCycle, Walk;
    var adj := BuildAdjacency(Connections(g.edges));
    ghost var universe := AdjacencyStaysInside(Connections(g.edges), g.nodes.Keys);
    var search := new Search(adj, g.nodes.Keys, universe);
    var nodes := Listed(g.nodes.Keys);
    for i := 0 to |nodes|
      invariant search.Valid() && search.path == [] && fresh(search)
      invariant forall k :: 0 <= k < i ==> nodes[k] in search.finished
    {
      if nodes[i] !in search.visited {
        var found, met := search.HasCycle(nodes[i]);
        if found {
          var start := Position(search.path, met);
          CycleOnPath(adj, search.path, start);
          return [CyclicDependency(search.path[start..] + [met])];
        }
      }
    }
    forall n | n in g.nodes
      ensures !CycleFrom(adj, n)
    {
      PostOrderHasNoCycle(adj, search.finished, n);
    }
    return [];
  }

  method Position(path: seq<string>, n: string) returns (i: nat)
    requires n in path
    ensures i < |path| && path[i] == n && n !in path[..i]
  {
    i := 0;
    while path[i] != n
      invariant i < |path| && n !in path[..i]
      decreases |path| - i
    {
      assert path[..i + 1] == path[..i] + [path[i]];
      i := i + 1;
    }
  }

  method FanErrors(g: Graph, outgoing: bool) returns (errors: seq<LinkError>)
    ensures var limit := if outgoing then g.maxFanOut else g.maxFanIn;
            errors == [] <==> FanWithin(g.edges, outgoing, limit)
    ensures forall e :: e in errors <==> e.FanLimit? && e.outgoing == outgoing && Faulty(g, e)
  {
    hide Fan;
    var counts: map<(string, string), nat> := map[];
    forall port { FanGrows([], outgoing, Edge("", "", "", "", 0), port); }
    for i := 0 to |g.edges|
      invariant forall port :: Fan(g.edges[..i], outgoing, port) == if port in counts then counts[port] else 0
    {
      var e := g.edges[i];
      assert g.edges[..i + 1] == g.edges[..i] + [e];
      forall port { FanGrows(g.edges[..i], outgoing, e, port); }
      var port := if outgoing then (e.from, e.fromPort) else (e.to, e.toPort);
      counts := counts[port := (if port in counts then counts[port] else 0) + 1];
    }
    assert g.edges[..|g.edges|] == g.edges;
    var limit := if outgoing then g.maxFanOut else g.maxFanIn;
    errors := [];
    var todo := counts.Keys;
    while todo != {}
      invariant todo <= counts.Keys
      invariant errors == [] <==> forall port :: port in counts && port !in todo ==> counts[port] <= limit
      invariant forall e :: e in errors <==>
                  e.FanLimit? && e.outgoing == outgoing && (e.name, e.port) in counts - todo && counts[(e.name, e.port)] > limit
      decreases |todo|
    {
      var port :| port in todo;
      if counts[port] > limit {
        errors := errors + [FanLimit(outgoing, port.0, port.1)];
      }
      todo := todo - {port};
    }
  }

  method Validate(g: Graph) returns (report: seq<LinkError>)
    ensures report == [] <==> ValidGraph(g)
    ensures forall e :: e in report ==> Faulty(g, e)
    ensures g.nodes != map[] ==> forall e: LinkError :: !e.CyclicDependency? && Faulty(g, e) ==> e in report
    ensures g.nodes != map[] ==> ((exists e :: e in report && e.CyclicDependency?) <==> !NoCycle(g))
  {
    hide NoCycle, FanWithin, EdgesKnown, EveryNodeConnected, NodeRolesRespected;
    report := if g.name == "" then [EmptyName] else [];
    if g.nodes == map[] {
      return report + [NoNodes];
    }
    var unknown := UnknownNodes(g);
    var nodes := NodeErrors(g);
    var cycle := CycleErrors(g);
    var fanOut := FanErrors(g, true);
    var fanIn := FanErrors(g, false);
    ghost var named := report;
    report := report + unknown + nodes + cycle + fanOut + fanIn;
    assert cycle != [] ==> cycle[0] in report && cycle[0].CyclicDependency?;
    assert |report| == |named| + |unknown| + |nodes| + |cycle| + |fanOut| + |fanIn|;
  }
}
