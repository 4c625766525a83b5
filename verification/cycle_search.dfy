/** The depth-first cycle search of `torvyn-contracts/src/linker.rs`. */
module CycleSearch {

  function Successors(adj: map<string, seq<string>>, n: string): seq<string> {
    if n in adj then adj[n] else []
  }

  /** Each node has an edge to the next. */
  predicate Walk(adj: map<string, seq<string>>, w: seq<string>) {
    forall i :: 0 <= i < |w| - 1 ==> w[i + 1] in Successors(adj, w[i])
  }

  /** A walk from `root` comes back to a node it has been at: a cycle is reachable. */
  ghost predicate CycleFrom(adj: map<string, seq<string>>, root: string) {
    exists w :: Walk(adj, w) && |w| >= 2 && w[0] == root && w[|w| - 1] in w[..|w| - 1]
  }

  ghost predicate Reachable(adj: map<string, seq<string>>, roots: set<string>, n: string) {
    exists w :: Walk(adj, w) && w != [] && w[0] in roots && w[|w| - 1] == n
  }

  /** Every node comes after all its successors. */
  ghost predicate PostOrder(adj: map<string, seq<string>>, order: seq<string>) {
    forall i :: 0 <= i < |order| ==> forall t :: t in Successors(adj, order[i]) ==> t in order[..i]
  }

  predicate Distinct(s: seq<string>) {
    forall i, j :: 0 <= i < j < |s| ==> s[i] != s[j]
  }

  /** A walk from a node back to it that meets every other node on it once. */
  predicate SimpleCycle(adj: map<string, seq<string>>, w: seq<string>) {
    |w| >= 2 && w[|w| - 1] == w[0] && Walk(adj, w) && Distinct(w[..|w| - 1])
  }

  lemma WalkExtends(adj: map<string, seq<string>>, w: seq<string>, n: string)
    requires Walk(adj, w) && (w != [] ==> n in Successors(adj, w[|w| - 1]))
    ensures Walk(adj, w + [n])
  {
    assert forall i :: 0 <= i < |w| ==> (w + [n])[i] == w[i];
  }

  lemma PostOrderExtends(adj: map<string, seq<string>>, order: seq<string>, n: string)
    requires PostOrder(adj, order) && forall t :: t in Successors(adj, n) ==> t in order
    ensures PostOrder(adj, order + [n])
  {
    var longer := order + [n];
    forall i | 0 <= i < |longer|
      ensures forall t :: t in Successors(adj, longer[i]) ==> t in longer[..i]
    {
      if i < |order| {
        assert longer[i] == order[i] && longer[..i] == order[..i];
      } else {
        assert longer[..i] == order;
      }
    }
  }

  /** In a post-order every walk goes down, so none that starts in it comes back, or leaves it. */
  lemma {:induction false} WalksGoDown(adj: map<string, seq<string>>, order: seq<string>, w: seq<string>, i: nat)
    requires PostOrder(adj, order) && Walk(adj, w) && w != [] && i < |order| && order[i] == w[0]
    ensures forall x :: x in w[1..] ==> x in order[..i]
    decreases |w|
  {
    if |w| > 1 {
      assert w[1] in Successors(adj, w[0]);
      assert w[1] in order[..i];
      var j :| 0 <= j < i && order[j] == w[1];
      var rest := w[1..];
      WalkTail(adj, w);
      WalksGoDown(adj, order, rest, j);
      assert forall x :: x in rest[1..] ==> x in order[..j];
      assert forall x :: x in order[..j] ==> x in order[..i];
      assert rest == [rest[0]] + rest[1..];
    }
  }

  lemma {:induction false} FirstAt(order: seq<string>, n: string) returns (i: nat)
    requires n in order
    ensures i < |order| && order[i] == n && n !in order[..i]
  {
    if order[0] == n {
      i := 0;
    } else {
      i := FirstAt(order[1..], n);
      i := i + 1;
      assert order[..i] == [order[0]] + order[1..][..i - 1];
    }
  }

  lemma PostOrderHasNoCycle(adj: map<string, seq<string>>, order: seq<string>, root: string)
    requires PostOrder(adj, order) && root in order
    ensures !CycleFrom(adj, root)
  {
    forall w | Walk(adj, w) && |w| >= 2 && w[0] == root
      ensures w[|w| - 1] !in w[..|w| - 1]
    {
      NoReturn(adj, order, w);
    }
  }

  lemma WalkTail(adj: map<string, seq<string>>, w: seq<string>)
    requires Walk(adj, w) && w != []
    ensures Walk(adj, w[1..])
  {
    var rest := w[1..];
    forall k | 0 <= k < |rest| - 1
      ensures rest[k + 1] in Successors(adj, rest[k])
    {
      assert w[k + 1 + 1] in Successors(adj, w[k + 1]);
    }
  }

  lemma {:induction false} NoReturn(adj: map<string, seq<string>>, order: seq<string>, w: seq<string>)
    requires PostOrder(adj, order) && Walk(adj, w) && |w| >= 2 && w[0] in order
    ensures w[|w| - 1] !in w[..|w| - 1]
    decreases |w|
  {
    hide PostOrder, Walk;
    var i := FirstAt(order, w[0]);
    WalksGoDown(adj, order, w, i);
    WalkTail(adj, w);
    var last, rest := w[|w| - 1], w[1..];
    assert last == rest[|w| - 2] && last in rest;
    assert last != w[0];
    if |w| > 2 {
      assert rest[0] in rest;
      assert rest[0] in order[..i];
      NoReturn(adj, order, rest);
      assert w[..|w| - 1] == [w[0]] + rest[..|rest| - 1];
    } else {
      assert w[..|w| - 1] == [w[0]];
    }
  }

  lemma ReachedIsInOrder(adj: map<string, seq<string>>, roots: set<string>, order: seq<string>, n: string)
    requires PostOrder(adj, order) && (forall r :: r in roots ==> r in order) && Reachable(adj, roots, n)
    ensures n in order
  {
    var w :| Walk(adj, w) && w != [] && w[0] in roots && w[|w| - 1] == n;
    var i := FirstAt(order, w[0]);
    WalksGoDown(adj, order, w, i);
    if |w| > 1 {
      assert n == w[1..][|w| - 2] && n in w[1..];
    }
  }

  // ---------------------------------------------------------------------------
  // The search
  // ---------------------------------------------------------------------------

  /** What the source shares between roots: the two sets, and the recursion's current `path`, from which the
      topology's search extracts the cycle. `finished` is the order nodes were completed in. */
  class Search {
    const adj: map<string, seq<string>>
    var visited: set<string>
    var inStack: set<string>
    var path: seq<string>
    ghost const universe: set<string>
    ghost const roots: set<string>
    ghost var finished: seq<string>

    ghost predicate Valid()
      reads this
    {
      && (forall n :: n in adj ==> forall t :: t in adj[n] ==> t in universe)
      && roots <= universe
      && visited <= universe
      && (forall n :: n in inStack <==> n in path)
      && (forall n :: n in visited <==> n in path || n in finished)
      && (forall n :: n in path ==> n !in finished)
      && Walk(adj, path)
      && (path != [] ==> path[0] in roots)
      && Distinct(path)
      && Finished(adj, roots, finished)
    }

    constructor (adj: map<string, seq<string>>, ghost roots: set<string>, ghost universe: set<string>)
      requires (forall n :: n in adj ==> forall t :: t in adj[n] ==> t in universe) && roots <= universe
      ensures Valid() && this.adj == adj && this.roots == roots && this.universe == universe
      ensures path == [] && finished == []
    {
      this.adj, visited, inStack, path := adj, {}, {}, [];
      this.universe, this.roots, finished := universe, roots, [];
    }

    method Enter(node: string)
      requires Valid() && node in universe && node !in visited
      requires if path == [] then node in roots else node in Successors(adj, path[|path| - 1])
      modifies this
      ensures Valid() && path == old(path) + [node] && finished == old(finished)
      ensures inStack == old(inStack) + {node} && visited == old(visited) + {node}
    {
      hide Finished, Walk, Distinct;
      PathGrows(adj, path, node);
      visited, inStack, path := visited + {node}, inStack + {node}, path + [node];
    }

    method Leave(node: string)
      requires Valid() && path != [] && node == path[|path| - 1]
      requires forall t :: t in Successors(adj, node) ==> t in finished
      modifies this
      ensures Valid() && path == old(path[..|path| - 1]) && finished == old(finished) + [node]
      ensures inStack == old(inStack) - {node} && visited == old(visited)
    {
      hide Finished, Walk, Distinct, Successors;
      FinishedExtends(adj, roots, finished, path);
      PathShrinks(adj, path);
      inStack, path, finished := inStack - {node}, path[..|path| - 1], finished + [node];
    }

    /** Visits what is reachable from `node` and not visited yet. It returns true as soon as it meets a node
        on its own path, which one further edge leads to and which is left as it is; otherwise `node` and
        everything new below it is finished, and the path is as it was. */
    method HasCycle(node: string) returns (found: bool, met: string)
      requires Valid() && node in universe && node !in visited
      requires if path == [] then node in roots else node in Successors(adj, path[|path| - 1])
      modifies this
      ensures found ==> CycleFrom(adj, if old(path) == [] then node else old(path[0]))
      ensures found ==> met in path && Walk(adj, path + [met]) && Distinct(path)
      ensures !found ==> Valid() && inStack == old(inStack) && path == old(path) && old(finished) <= finished && node in finished
      ensures !found ==> old(visited) <= visited
      decreases universe - visited
    {
      hide Finished, Walk, CycleFrom, Distinct;
      Enter(node);
      var neighbors := if node in adj then adj[node] else [];
      for j := 0 to |neighbors|
        invariant Valid() && path == old(path) + [node] && inStack == old(inStack) + {node}
        invariant old(finished) <= finished && old(visited) + {node} <= visited
        invariant forall k :: 0 <= k < j ==> neighbors[k] in finished
      {
        var neighbor := neighbors[j];
        if neighbor !in visited {
          var below, meets := HasCycle(neighbor);
          if below {
            return true, meets;
          }
        } else if neighbor in inStack {
          BackEdge(adj, path, neighbor);
          return true, neighbor;
        }
      }
      assert node !in old(inStack);
      Leave(node);
      return false, node;
    }
  }

  lemma PathShrinks(adj: map<string, seq<string>>, path: seq<string>)
    requires Walk(adj, path) && Distinct(path) && path != []
    ensures Walk(adj, path[..|path| - 1]) && Distinct(path[..|path| - 1])
    ensures forall n :: n in path[..|path| - 1] <==> n in path && n != path[|path| - 1]
    ensures path[..|path| - 1] != [] ==> path[..|path| - 1][0] == path[0]
  {
    var front := path[..|path| - 1];
    forall i | 0 <= i < |front| - 1
      ensures front[i + 1] in Successors(adj, front[i])
    {
      assert path[i + 1] in Successors(adj, path[i]);
    }
  }

  lemma PathGrows(adj: map<string, seq<string>>, path: seq<string>, n: string)
    requires Walk(adj, path) && Distinct(path) && n !in path && (path != [] ==> n in Successors(adj, path[|path| - 1]))
    ensures Walk(adj, path + [n]) && Distinct(path + [n])
  {
    WalkExtends(adj, path, n);
  }

  lemma BackEdge(adj: map<string, seq<string>>, path: seq<string>, n: string)
    requires Walk(adj, path) && n in path && n in Successors(adj, path[|path| - 1])
    ensures CycleFrom(adj, path[0]) && Walk(adj, path + [n])
  {
    var w := path + [n];
    WalkExtends(adj, path, n);
    assert w[..|w| - 1] == path;
  }

  /** The end of a path, from where a further edge leads back to, is a cycle. */
  lemma CycleOnPath(adj: map<string, seq<string>>, path: seq<string>, start: nat)
    requires start < |path| && Distinct(path) && Walk(adj, path + [path[start]])
    ensures SimpleCycle(adj, path[start..] + [path[start]])
  {
    var w, cycle := path + [path[start]], path[start..] + [path[start]];
    forall i | 0 <= i < |cycle| - 1
      ensures cycle[i + 1] in Successors(adj, cycle[i])
    {
      assert w[start + i + 1] in Successors(adj, w[start + i]);
    }
    assert cycle[..|cycle| - 1] == path[start..];
  }

  /** A post-order without repetition of nodes that are reachable. */
  ghost predicate Finished(adj: map<string, seq<string>>, roots: set<string>, finished: seq<string>) {
    PostOrder(adj, finished) && Distinct(finished) && forall n :: n in finished ==> Reachable(adj, roots, n)
  }

  lemma FinishedExtends(adj: map<string, seq<string>>, roots: set<string>, finished: seq<string>, path: seq<string>)
    requires Finished(adj, roots, finished) && Walk(adj, path) && path != [] && path[0] in roots
    requires var n := path[|path| - 1]; n !in finished && forall t :: t in Successors(adj, n) ==> t in finished
    ensures Finished(adj, roots, finished + [path[|path| - 1]])
  {
    var n := path[|path| - 1];
    PostOrderExtends(adj, finished, n);
    assert Reachable(adj, roots, n);
  }
}
