/** Link-time validation of a pipeline definition (`torvyn-contracts/src/linker.rs`). */
module PipelineValidation {
  import opened Wrappers
  import opened CycleSearch
  import opened Compatibility
  import CompatibilityLaws

  datatype Role = Source | Processor | Sink | Filter | Router

  datatype Version = Version(major: nat, minor: nat, patch: nat)

  /** A parsed WIT package of a component: its name, its version if it has one, and its contents. */
  datatype WitPackage = WitPackage(name: string, version: Option<Version>, contents: Package)

  datatype Component = Component(name: string, role: Role, packages: seq<WitPackage>, requiredCapabilities: seq<string>)

  datatype Connection = Connection(from: string, to: string)

  datatype Pipeline = Pipeline(components: seq<Component>, connections: seq<Connection>, grants: map<string, seq<string>>)

  datatype Diagnostic =
    | UnknownComponent(name: string)
    | DisconnectedComponent(name: string)
    | SourceHasIncoming(name: string)
    | SinkHasOutgoing(name: string)
    | PipelineCycle(start: string)
    | IncompatibleContract(from: string, to: string, package: string)
    | UnmetCapability(component: string, capability: string)
    | VersionRangeUnsatisfiable(package: string, first: Version, other: Version)

  /** Every diagnostic validation pushes is an error. */
  class ValidationResult {
    var diagnostics: seq<Diagnostic>

    constructor ()
      ensures diagnostics == []
    {
      diagnostics := [];
    }

    method Push(d: Diagnostic)
      modifies this
      ensures diagnostics == old(diagnostics) + [d]
    {
      diagnostics := diagnostics + [d];
    }

    predicate IsOk()
      reads this
    {
      diagnostics == []
    }
  }

  // ---------------------------------------------------------------------------
  // Well-formed pipelines
  // ---------------------------------------------------------------------------

  function Names(components: seq<Component>): set<string> {
    set i | 0 <= i < |components| :: components[i].name
  }

  /** The source's component map: the last component of a name wins. */
  function ComponentMap(components: seq<Component>): (m: map<string, Component>)
    ensures m.Keys == Names(components)
  {
    if components == [] then map[]
    else
      var last := components[|components| - 1];
      assert forall i :: 0 <= i < |components| - 1 ==> components[i] == components[..|components| - 1][i];
      assert Names(components) == Names(components[..|components| - 1]) + {last.name};
      ComponentMap(components[..|components| - 1])[last.name := last]
  }

  /** The component found under a name is the last of that name. */
  lemma {:induction false} LastWins(components: seq<Component>, i: nat)
    requires i < |components| && forall j :: i < j < |components| ==> components[j].name != components[i].name
    ensures ComponentMap(components)[components[i].name] == components[i]
  {
    var n := |components| - 1;
    var front := components[..n];
    if i < n {
      assert forall j :: 0 <= j < n ==> front[j] == components[j];
      hide Names;
      LastWins(front, i);
      assert components[n].name != components[i].name;
    }
  }

  predicate EndpointsKnown(p: Pipeline) {
    forall c :: c in p.connections ==> c.from in Names(p.components) && c.to in Names(p.components)
  }

  predicate Connected(p: Pipeline) {
    forall x :: x in p.components ==> exists c :: c in p.connections && (c.from == x.name || c.to == x.name)
  }

  predicate RolesRespected(p: Pipeline) {
    forall x, c :: x in p.components && c in p.connections ==>
      (x.role == Source ==> c.to != x.name) && (x.role == Sink ==> c.from != x.name)
  }

  /** The connections as an adjacency map, in order. */
  function Adjacency(connections: seq<Connection>): map<string, seq<string>> {
    if connections == [] then map[]
    else
      var last := connections[|connections| - 1];
      var adj := Adjacency(connections[..|connections| - 1]);
      adj[last.from := Successors(adj, last.from) + [last.to]]
  }

  ghost predicate Acyclic(p: Pipeline) {
    forall x :: x in p.components ==> !CycleFrom(Adjacency(p.connections), x.name)
  }

  /** Packages of the same name compare interfaces only: worlds differ by design. */
  ghost predicate PackagesCompatible(up: WitPackage, down: WitPackage) {
    up.name == down.name ==> VerdictFor(Package(up.contents.interfaces, {}), Package(down.contents.interfaces, {})) != Incompatible
  }

  /** That is: the downstream's interfaces offer all the upstream's do, unchanged. */
  lemma CompatibleExtends(up: WitPackage, down: WitPackage)
    ensures PackagesCompatible(up, down) <==>
            (up.name == down.name ==>
               forall i :: i in up.contents.interfaces ==>
                 && i in down.contents.interfaces
                 && CompatibilityLaws.ExtendsInterface(up.contents.interfaces[i], down.contents.interfaces[i], true))
  {
    hide VerdictFor, CompatibilityLaws.ExtendsInterface;
    CompatibilityLaws.VerdictMeans(Package(up.contents.interfaces, {}), Package(down.contents.interfaces, {}));
  }

  ghost predicate ComponentsCompatible(up: Component, down: Component) {
    forall a, b :: a in up.packages && b in down.packages ==> PackagesCompatible(a, b)
  }

  ghost predicate ContractsCompatible(p: Pipeline) {
    var m := ComponentMap(p.components);
    forall c :: c in p.connections && c.from in m && c.to in m ==> ComponentsCompatible(m[c.from], m[c.to])
  }

  function GrantsOf(p: Pipeline, component: string): seq<string> {
    if component in p.grants then p.grants[component] else []
  }

  predicate CapabilitiesGranted(p: Pipeline) {
    forall x :: x in p.components ==> forall r :: r in x.requiredCapabilities ==> r in GrantsOf(p, x.name)
  }

  /** All versions of a package, over all components, have one major version. */
  ghost predicate VersionsAgree(p: Pipeline) {
    forall x, y :: x in p.components && y in p.components ==>
      forall a, b :: a in x.packages && b in y.packages ==> SameMajor(a, b)
  }

  predicate SameMajor(a: WitPackage, b: WitPackage) {
    a.name == b.name && a.version.Some? && b.version.Some? ==> a.version.value.major == b.version.value.major
  }

  ghost predicate WellFormed(p: Pipeline) {
    && EndpointsKnown(p) && Connected(p) && RolesRespected(p) && Acyclic(p)
    && ContractsCompatible(p) && CapabilitiesGranted(p) && VersionsAgree(p)
  }

  // ---------------------------------------------------------------------------
  // Topology
  // ---------------------------------------------------------------------------

  function EndpointErrors(known: set<string>, connections: seq<Connection>): seq<Diagnostic> {
    if connections == [] then []
    else
      var c := connections[|connections| - 1];
      EndpointErrors(known, connections[..|connections| - 1])
      + (if c.from in known then [] else [UnknownComponent(c.from)])
      + (if c.to in known then [] else [UnknownComponent(c.to)])
  }

  method CheckEndpoints(p: Pipeline, result: ValidationResult)
    modifies result
    ensures result.diagnostics == old(result.diagnostics) + EndpointErrors(Names(p.components), p.connections)
  {
    var known := ComponentMap(p.components);
    for i := 0 to |p.connections|
      invariant result.diagnostics == old(result.diagnostics) + EndpointErrors(Names(p.components), p.connections[..i])
    {
      var c := p.connections[i];
      assert p.connections[..i + 1][..i] == p.connections[..i];
      if c.from !in known {
        result.Push(UnknownComponent(c.from));
      }
      if c.to !in known {
        result.Push(UnknownComponent(c.to));
      }
    }
    assert p.connections[..|p.connections|] == p.connections;
  }

  lemma {:induction false} EndpointErrorsMean(known: set<string>, connections: seq<Connection>)
    ensures forall d :: d in EndpointErrors(known, connections) <==>
              d.UnknownComponent? && d.name !in known && exists c :: c in connections && (c.from == d.name || c.to == d.name)
  {
    if connections != [] {
      EndpointErrorsMean(known, connections[..|connections| - 1]);
      assert connections == connections[..|connections| - 1] + [connections[|connections| - 1]];
    }
  }

  function ConnectedErrors(connected: set<string>, components: seq<Component>): seq<Diagnostic> {
    if components == [] then []
    else
      var x := components[|components| - 1];
      ConnectedErrors(connected, components[..|components| - 1]) + if x.name in connected then [] else [DisconnectedComponent(x.name)]
  }

  function Ends(connections: seq<Connection>): set<string> {
    (set c | c in connections :: c.from) + (set c | c in connections :: c.to)
  }

  method CheckConnected(p: Pipeline, result: ValidationResult)
    modifies result
    ensures result.diagnostics == old(result.diagnostics) + ConnectedErrors(Ends(p.connections), p.components)
  {
    var connected := Ends(p.connections);
    for i := 0 to |p.components|
      invariant result.diagnostics == old(result.diagnostics) + ConnectedErrors(connected, p.components[..i])
    {
      assert p.components[..i + 1][..i] == p.components[..i];
      if p.components[i].name !in connected {
        result.Push(DisconnectedComponent(p.components[i].name));
      }
    }
    assert p.components[..|p.components|] == p.components;
  }

  lemma {:induction false} ConnectedErrorsMean(connected: set<string>, components: seq<Component>)
    ensures forall d :: d in ConnectedErrors(connected, components) <==>
              d.DisconnectedComponent? && d.name !in connected && d.name in Names(components)
  {
    if components != [] {
      ConnectedErrorsMean(connected, components[..|components| - 1]);
      NamesGrow(components);
    }
  }

  lemma NamesGrow(components: seq<Component>)
    requires components != []
    ensures Names(components) == Names(components[..|components| - 1]) + {components[|components| - 1].name}
  {
    assert forall i :: 0 <= i < |components| - 1 ==> components[i] == components[..|components| - 1][i];
  }

  /** How many of the first `n` connections have the name at that end. */
  method CountEnds(connections: seq<Connection>, incoming: bool) returns (counts: map<string, nat>)
    ensures forall n :: n in counts && counts[n] > 0 <==> exists c :: c in connections && (if incoming then c.to else c.from) == n
  {
    counts := map[];
    for i := 0 to |connections|
      invariant forall n :: n in counts && counts[n] > 0 <==>
                  exists k :: 0 <= k < i && (if incoming then connections[k].to else connections[k].from) == n
    {
      var n := if incoming then connections[i].to else connections[i].from;
      counts := counts[n := (if n in counts then counts[n] else 0) + 1];
    }
  }

  predicate HasIncoming(connections: seq<Connection>, n: string) {
    exists c :: c in connections && c.to == n
  }

  predicate HasOutgoing(connections: seq<Connection>, n: string) {
    exists c :: c in connections && c.from == n
  }

  function RoleErrors(connections: seq<Connection>, components: seq<Component>): seq<Diagnostic> {
    if components == [] then []
    else
      var x := components[|components| - 1];
      RoleErrors(connections, components[..|components| - 1])
      + (if x.role == Source && HasIncoming(connections, x.name) then [SourceHasIncoming(x.name)] else [])
      + (if x.role == Sink && HasOutgoing(connections, x.name) then [SinkHasOutgoing(x.name)] else [])
  }

  method CheckRoles(p: Pipeline, result: ValidationResult)
    modifies result
    ensures result.diagnostics == old(result.diagnostics) + RoleErrors(p.connections, p.components)
  {
    var incoming := CountEnds(p.connections, true);
    var outgoing := CountEnds(p.connections, false);
    for i := 0 to |p.components|
      invariant result.diagnostics == old(result.diagnostics) + RoleErrors(p.connections, p.components[..i])
    {
      var x := p.components[i];
      assert p.components[..i + 1][..i] == p.components[..i];
      if x.role == Source && x.name in incoming && incoming[x.name] > 0 {
        result.Push(SourceHasIncoming(x.name));
      }
      if x.role == Sink && x.name in outgoing && outgoing[x.name] > 0 {
        result.Push(SinkHasOutgoing(x.name));
      }
    }
    assert p.components[..|p.components|] == p.components;
  }

  lemma {:induction false} RoleErrorsMean(connections: seq<Connection>, components: seq<Component>)
    ensures forall d :: d in RoleErrors(connections, components) <==>
              || (d.SourceHasIncoming? && HasIncoming(connections, d.name) && exists x :: x in components && x.name == d.name && x.role == Source)
              || (d.SinkHasOutgoing? && HasOutgoing(connections, d.name) && exists x :: x in components && x.name == d.name && x.role == Sink)
  {
    if components != [] {
      RoleErrorsMean(connections, components[..|components| - 1]);
      assert components == components[..|components| - 1] + [components[|components| - 1]];
    }
  }

  lemma {:induction false} AdjacencyIsConnections(connections: seq<Connection>)
    ensures forall a, b :: b in Successors(Adjacency(connections), a) <==> Connection(a, b) in connections
  {
    if connections != [] {
      AdjacencyIsConnections(connections[..|connections| - 1]);
      assert connections == connections[..|connections| - 1] + [connections[|connections| - 1]];
    }
  }

  method BuildAdjacency(connections: seq<Connection>) returns (adj: map<string, seq<string>>)
    ensures adj == Adjacency(connections)
  {
    adj := map[];
    for i := 0 to |connections|
      invariant adj == Adjacency(connections[..i])
    {
      var c := connections[i];
      adj := adj[c.from := Successors(adj, c.from) + [c.to]];
      assert connections[..i + 1][..i] == connections[..i];
    }
    assert connections[..|connections|] == connections;
  }

  lemma AdjacencyStaysInside(connections: seq<Connection>, roots: set<string>) returns (universe: set<string>)
    ensures roots <= universe
    ensures forall n :: n in Adjacency(connections) ==> forall t :: t in Adjacency(connections)[n] ==> t in universe
  {
    universe := roots + set c | c in connections :: c.to;
    AdjacencyIsConnections(connections);
    forall n | n in Adjacency(connections)
      ensures forall t :: t in Adjacency(connections)[n] ==> t in universe
    {
      assert Adjacency(connections)[n] == Successors(Adjacency(connections), n);
    }
  }

  /** Pushes one diagnostic exactly when a cycle is reachable from a declared component. A silent search leaves
      the reached nodes in an order whose reverse is topological. */
  method DetectCycles(p: Pipeline, result: ValidationResult) returns (ghost order: seq<string>)
    modifies result
    ensures Acyclic(p) ==> result.diagnostics == old(result.diagnostics)
    ensures !Acyclic(p) ==>
              exists start :: && start in Names(p.components) && CycleFrom(Adjacency(p.connections), start)
                              && result.diagnostics == old(result.diagnostics) + [PipelineCycle(start)]
    ensures Acyclic(p) ==>
              && PostOrder(Adjacency(p.connections), order) && Distinct(order)
              && forall n :: n in order <==> Reachable(Adjacency(p.connections), Names(p.components), n)
  {
    hide CycleFrom, PostOrder, Reachable, Adjacency, Distinct;
    var adj := BuildAdjacency(p.connections);
    ghost var universe := AdjacencyStaysInside(p.connections, Names(p.components));
    var search := new Search(adj, Names(p.components), universe);
    order := [];
    for i := 0 to |p.components|
      invariant search.Valid() && search.path == [] && fresh(search)
      invariant result.diagnostics == old(result.diagnostics)
      invariant forall k :: 0 <= k < i ==> p.components[k].name in search.finished
    {
      var x := p.components[i];
      if x.name !in search.visited {
        var found, _ := search.HasCycle(x.name);
        if found {
          assert x in p.components;
          result.Push(PipelineCycle(x.name));
          return;
        }
      }
    }
    order := search.finished;
    SilentSearch(p, order);
  }

  lemma SilentSearch(p: Pipeline, order: seq<string>)
    requires Finished(Adjacency(p.connections), Names(p.components), order)
    requires forall k :: 0 <= k < |p.components| ==> p.components[k].name in order
    ensures Acyclic(p)
    ensures PostOrder(Adjacency(p.connections), order) && Distinct(order)
    ensures forall n :: n in order <==> Reachable(Adjacency(p.connections), Names(p.components), n)
  {
    hide CycleFrom, PostOrder, Reachable, Adjacency, Distinct;
    var adj := Adjacency(p.connections);
    forall x | x in p.components
      ensures !CycleFrom(adj, x.name)
    {
      PostOrderHasNoCycle(adj, order, x.name);
    }
    forall n | Reachable(adj, Names(p.components), n)
      ensures n in order
    {
      ReachedIsInOrder(adj, Names(p.components), order, n);
    }
  }

  // ---------------------------------------------------------------------------
  // Contracts, capabilities, versions
  // ---------------------------------------------------------------------------

  ghost function PackageErrors(c: Connection, up: WitPackage, downs: seq<WitPackage>): seq<Diagnostic> {
    if downs == [] then []
    else
      PackageErrors(c, up, downs[..|downs| - 1])
      + if PackagesCompatible(up, downs[|downs| - 1]) then [] else [IncompatibleContract(c.from, c.to, up.name)]
  }

  ghost function ConnectionErrors(c: Connection, ups: seq<WitPackage>, downs: seq<WitPackage>): seq<Diagnostic> {
    if ups == [] then [] else ConnectionErrors(c, ups[..|ups| - 1], downs) + PackageErrors(c, ups[|ups| - 1], downs)
  }

  ghost function ContractErrors(m: map<string, Component>, connections: seq<Connection>): seq<Diagnostic> {
    if connections == [] then []
    else
      var c := connections[|connections| - 1];
      ContractErrors(m, connections[..|connections| - 1])
      + if c.from in m && c.to in m then ConnectionErrors(c, m[c.from].packages, m[c.to].packages) else []
  }

  method CheckPackages(c: Connection, up: WitPackage, downs: seq<WitPackage>, result: ValidationResult)
    modifies result
    ensures result.diagnostics == old(result.diagnostics) + PackageErrors(c, up, downs)
  {
    hide VerdictFor;
    for i := 0 to |downs|
      invariant result.diagnostics == old(result.diagnostics) + PackageErrors(c, up, downs[..i])
    {
      var down := downs[i];
      assert downs[..i + 1][..i] == downs[..i];
      if up.name == down.name {
        var report := CheckCompatibility(Package(up.contents.interfaces, {}), Package(down.contents.interfaces, {}));
        if report.verdict == Incompatible {
          result.Push(IncompatibleContract(c.from, c.to, up.name));
        }
      }
    }
    assert downs[..|downs|] == downs;
  }

  method CheckConnection(c: Connection, ups: seq<WitPackage>, downs: seq<WitPackage>, result: ValidationResult)
    modifies result
    ensures result.diagnostics == old(result.diagnostics) + ConnectionErrors(c, ups, downs)
  {
    hide PackageErrors;
    for i := 0 to |ups|
      invariant result.diagnostics == old(result.diagnostics) + ConnectionErrors(c, ups[..i], downs)
    {
      assert ups[..i + 1][..i] == ups[..i];
      CheckPackages(c, ups[i], downs, result);
    }
    assert ups[..|ups|] == ups;
  }

  method CheckContracts(p: Pipeline, result: ValidationResult)
    modifies result
    ensures result.diagnostics == old(result.diagnostics) + ContractErrors(ComponentMap(p.components), p.connections)
  {
    hide ConnectionErrors;
    var m := ComponentMap(p.components);
    for i := 0 to |p.connections|
      invariant result.diagnostics == old(result.diagnostics) + ContractErrors(m, p.connections[..i])
    {
      var c := p.connections[i];
      assert p.connections[..i + 1][..i] == p.connections[..i];
      if c.from in m && c.to in m {
        CheckConnection(c, m[c.from].packages, m[c.to].packages, result);
      }
    }
    assert p.connections[..|p.connections|] == p.connections;
  }

  lemma {:induction false} PackageErrorsMean(c: Connection, up: WitPackage, downs: seq<WitPackage>)
    ensures forall d :: d in PackageErrors(c, up, downs) <==>
              d == IncompatibleContract(c.from, c.to, up.name) && exists b :: b in downs && !PackagesCompatible(up, b)
  {
    if downs != [] {
      PackageErrorsMean(c, up, downs[..|downs| - 1]);
      assert downs == downs[..|downs| - 1] + [downs[|downs| - 1]];
    }
  }

  lemma {:induction false} ConnectionErrorsMean(c: Connection, ups: seq<WitPackage>, downs: seq<WitPackage>)
    ensures forall d :: d in ConnectionErrors(c, ups, downs) <==>
              && d.IncompatibleContract? && d.from == c.from && d.to == c.to
              && exists a, b :: a in ups && b in downs && a.name == d.package && !PackagesCompatible(a, b)
  {
    hide PackagesCompatible, PackageErrors;
    if ups != [] {
      ConnectionErrorsMean(c, ups[..|ups| - 1], downs);
      PackageErrorsMean(c, ups[|ups| - 1], downs);
      assert ups == ups[..|ups| - 1] + [ups[|ups| - 1]];
    }
  }

  lemma {:induction false} ContractErrorsMean(m: map<string, Component>, connections: seq<Connection>)
    ensures forall d :: d in ContractErrors(m, connections) <==>
              && d.IncompatibleContract? && Connection(d.from, d.to) in connections && d.from in m && d.to in m
              && exists a, b :: a in m[d.from].packages && b in m[d.to].packages && a.name == d.package && !PackagesCompatible(a, b)
  {
    hide PackagesCompatible, ConnectionErrors;
    if connections != [] {
      var c := connections[|connections| - 1];
      ContractErrorsMean(m, connections[..|connections| - 1]);
      if c.from in m && c.to in m {
        ConnectionErrorsMean(c, m[c.from].packages, m[c.to].packages);
      }
      assert connections == connections[..|connections| - 1] + [c];
    }
  }

  function RequirementErrors(component: string, required: seq<string>, granted: set<string>): seq<Diagnostic> {
    if required == [] then []
    else
      RequirementErrors(component, required[..|required| - 1], granted)
      + if required[|required| - 1] in granted then [] else [UnmetCapability(component, required[|required| - 1])]
  }

  function Granted(p: Pipeline, component: string): set<string> {
    set g | g in GrantsOf(p, component)
  }

  function CapabilityErrors(p: Pipeline, components: seq<Component>): seq<Diagnostic> {
    if components == [] then []
    else
      var x := components[|components| - 1];
      CapabilityErrors(p, components[..|components| - 1]) + RequirementErrors(x.name, x.requiredCapabilities, Granted(p, x.name))
  }

  method CheckCapabilities(p: Pipeline, result: ValidationResult)
    modifies result
    ensures result.diagnostics == old(result.diagnostics) + CapabilityErrors(p, p.components)
  {
    hide RequirementErrors, Granted;
    for i := 0 to |p.components|
      invariant result.diagnostics == old(result.diagnostics) + CapabilityErrors(p, p.components[..i])
    {
      var x := p.components[i];
      assert p.components[..i + 1][..i] == p.components[..i];
      CheckRequirements(x, Granted(p, x.name), result);
    }
    assert p.components[..|p.components|] == p.components;
  }

  method CheckRequirements(x: Component, granted: set<string>, result: ValidationResult)
    modifies result
    ensures result.diagnostics == old(result.diagnostics) + RequirementErrors(x.name, x.requiredCapabilities, granted)
  {
    var required := x.requiredCapabilities;
    for i := 0 to |required|
      invariant result.diagnostics == old(result.diagnostics) + RequirementErrors(x.name, required[..i], granted)
    {
      assert required[..i + 1][..i] == required[..i];
      if required[i] !in granted {
        result.Push(UnmetCapability(x.name, required[i]));
      }
    }
    assert required[..|required|] == required;
  }

  lemma {:induction false} RequirementErrorsMean(component: string, required: seq<string>, granted: set<string>)
    ensures forall d :: d in RequirementErrors(component, required, granted) <==>
              d.UnmetCapability? && d.component == component && d.capability in required && d.capability !in granted
  {
    if required != [] {
      RequirementErrorsMean(component, required[..|required| - 1], granted);
      assert required == required[..|required| - 1] + [required[|required| - 1]];
    }
  }

  lemma {:induction false} CapabilityErrorsMean(p: Pipeline, components: seq<Component>)
    ensures forall d :: d in CapabilityErrors(p, components) <==>
              && d.UnmetCapability? && d.capability !in GrantsOf(p, d.component)
              && exists x :: x in components && x.name == d.component && d.capability in x.requiredCapabilities
  {
    if components != [] {
      var x := components[|components| - 1];
      CapabilityErrorsMean(p, components[..|components| - 1]);
      RequirementErrorsMean(x.name, x.requiredCapabilities, Granted(p, x.name));
      assert components == components[..|components| - 1] + [x];
    }
  }

  function AllPackages(components: seq<Component>): seq<WitPackage> {
    if components == [] then [] else AllPackages(components[..|components| - 1]) + components[|components| - 1].packages
  }

  /** The versions of each package, in the order its components come. */
  function VersionMap(packages: seq<WitPackage>): map<string, seq<Version>> {
    if packages == [] then map[]
    else
      var m, last := VersionMap(packages[..|packages| - 1]), packages[|packages| - 1];
      if last.version.None? then m else m[last.name := (if last.name in m then m[last.name] else []) + [last.version.value]]
  }

  method GroupVersions(components: seq<Component>) returns (m: map<string, seq<Version>>)
    ensures m == VersionMap(AllPackages(components))
  {
    m := map[];
    for i := 0 to |components|
      invariant m == VersionMap(AllPackages(components[..i]))
    {
      assert components[..i + 1][..i] == components[..i];
      m := AddVersions(m, components[i].packages, AllPackages(components[..i]));
    }
    assert components[..|components|] == components;
  }

  method AddVersions(m: map<string, seq<Version>>, packages: seq<WitPackage>, ghost before: seq<WitPackage>)
    returns (grown: map<string, seq<Version>>)
    requires m == VersionMap(before)
    ensures grown == VersionMap(before + packages)
  {
    hide VersionMap;
    grown := m;
    assert before + packages[..0] == before;
    for j := 0 to |packages|
      invariant grown == VersionMap(before + packages[..j])
    {
      var package := packages[j];
      VersionMapGrows(before + packages[..j], package);
      assert before + packages[..j + 1] == before + packages[..j] + [package];
      if package.version.Some? {
        grown := grown[package.name := (if package.name in grown then grown[package.name] else []) + [package.version.value]];
      }
    }
    assert packages[..|packages|] == packages;
  }

  lemma VersionMapGrows(packages: seq<WitPackage>, last: WitPackage)
    ensures VersionMap(packages + [last]) ==
            var m := VersionMap(packages);
            if last.version.None? then m else m[last.name := (if last.name in m then m[last.name] else []) + [last.version.value]]
  {
    assert (packages + [last])[..|packages|] == packages;
  }

  /** Every later version is held against the first. */
  function MajorErrors(package: string, versions: seq<Version>): seq<Diagnostic> {
    if |versions| < 2 then []
    else
      var last := versions[|versions| - 1];
      MajorErrors(package, versions[..|versions| - 1])
      + if last.major == versions[0].major then [] else [VersionRangeUnsatisfiable(package, versions[0], last)]
  }

  method CheckMajors(package: string, versions: seq<Version>, result: ValidationResult)
    modifies result
    ensures result.diagnostics == old(result.diagnostics) + MajorErrors(package, versions)
  {
    if |versions| < 2 {
      return;
    }
    for i := 1 to |versions|
      invariant result.diagnostics == old(result.diagnostics) + MajorErrors(package, versions[..i])
    {
      assert versions[..i + 1][..i] == versions[..i] && versions[..i + 1][0] == versions[0];
      if versions[i].major != versions[0].major {
        result.Push(VersionRangeUnsatisfiable(package, versions[0], versions[i]));
      }
    }
    assert versions[..|versions|] == versions;
  }

  /** The packages come in whatever order the map yields them. */
  method CheckVersions(p: Pipeline, result: ValidationResult)
    modifies result
    ensures old(result.diagnostics) <= result.diagnostics
    ensures var m := VersionMap(AllPackages(p.components));
            forall d :: d in result.diagnostics[|old(result.diagnostics)|..] <==> exists n :: n in m && d in MajorErrors(n, m[n])
  {
    hide VersionMap, MajorErrors;
    var m := GroupVersions(p.components);
    var todo := m.Keys;
    while todo != {}
      invariant todo <= m.Keys
      invariant old(result.diagnostics) <= result.diagnostics
      invariant forall d :: d in result.diagnostics[|old(result.diagnostics)|..] <==> exists n :: n in m && n !in todo && d in MajorErrors(n, m[n])
      decreases |todo|
    {
      var n :| n in todo;
      ghost var before := result.diagnostics[|old(result.diagnostics)|..];
      CheckMajors(n, m[n], result);
      assert result.diagnostics[|old(result.diagnostics)|..] == before + MajorErrors(n, m[n]);
      todo := todo - {n};
    }
  }

  lemma {:induction false} MajorErrorsMean(package: string, versions: seq<Version>)
    ensures forall d :: d in MajorErrors(package, versions) <==>
              && d.VersionRangeUnsatisfiable? && d.package == package && versions != [] && d.first == versions[0]
              && d.other in versions && d.other.major != d.first.major
  {
    if |versions| >= 2 {
      MajorErrorsMean(package, versions[..|versions| - 1]);
      assert versions == versions[..|versions| - 1] + [versions[|versions| - 1]];
    }
  }

  lemma {:induction false} VersionMapMeans(packages: seq<WitPackage>)
    ensures forall n :: n in VersionMap(packages) ==> VersionMap(packages)[n] != []
    ensures forall n, v :: n in VersionMap(packages) && v in VersionMap(packages)[n] <==> HasVersion(packages, n, v)
  {
    if packages != [] {
      var front, last := packages[..|packages| - 1], packages[|packages| - 1];
      VersionMapMeans(front);
      assert packages == front + [last];
      forall n, v
        ensures HasVersion(packages, n, v) <==> HasVersion(front, n, v) || (last.name == n && last.version == Some(v))
      {
        if HasVersion(front, n, v) {
          var a :| a in front && a.name == n && a.version == Some(v);
          assert a in packages;
        }
      }
    }
  }

  predicate HasVersion(packages: seq<WitPackage>, n: string, v: Version) {
    exists a :: a in packages && a.name == n && a.version == Some(v)
  }

  lemma {:induction false} AllPackagesMean(components: seq<Component>)
    ensures forall a :: a in AllPackages(components) <==> exists x :: x in components && a in x.packages
  {
    if components != [] {
      AllPackagesMean(components[..|components| - 1]);
      assert components == components[..|components| - 1] + [components[|components| - 1]];
    }
  }

  ghost predicate MajorsUniform(m: map<string, seq<Version>>) {
    forall n :: n in m ==> forall v :: v in m[n] ==> m[n] != [] && v.major == m[n][0].major
  }

  lemma MajorsAgree(p: Pipeline)
    ensures VersionsAgree(p) <==> MajorsUniform(VersionMap(AllPackages(p.components)))
  {
    hide VersionMap, AllPackages, HasVersion;
    var all := AllPackages(p.components);
    var m: map<string, seq<Version>> := VersionMap(all);
    AllPackagesMean(p.components);
    VersionMapMeans(all);
    if VersionsAgree(p) {
      forall n, v: Version | n in m && v in m[n]
        ensures m[n] != [] && v.major == m[n][0].major
      {
        assert m[n][0] in m[n];
        SameAcross(p, n, v, m[n][0]);
      }
    }
    if MajorsUniform(m) {
      forall x, y, a, b | x in p.components && y in p.components && a in x.packages && b in y.packages
        ensures SameMajor(a, b)
      {
        if a.name == b.name && a.version.Some? && b.version.Some? {
          Occurs(all, a);
          Occurs(all, b);
        }
      }
    }
  }

  lemma Occurs(packages: seq<WitPackage>, a: WitPackage)
    requires a in packages && a.version.Some?
    ensures HasVersion(packages, a.name, a.version.value)
  {
  }

  lemma SameAcross(p: Pipeline, n: string, v: Version, w: Version)
    requires VersionsAgree(p) && HasVersion(AllPackages(p.components), n, v) && HasVersion(AllPackages(p.components), n, w)
    ensures v.major == w.major
  {
    hide AllPackages;
    AllPackagesMean(p.components);
    var a :| a in AllPackages(p.components) && a.name == n && a.version == Some(v);
    var b :| b in AllPackages(p.components) && b.name == n && b.version == Some(w);
    assert SameMajor(a, b);
  }

  // ---------------------------------------------------------------------------
  // The whole
  // ---------------------------------------------------------------------------

  lemma NoneInEmpty(ds: seq<Diagnostic>)
    ensures ds == [] <==> forall d :: d !in ds
  {
    if ds != [] {
      assert ds[0] in ds;
    }
  }

  lemma EndpointsGood(p: Pipeline)
    ensures EndpointErrors(Names(p.components), p.connections) == [] <==> EndpointsKnown(p)
  {
    hide EndpointErrors, Names;
    var ds := EndpointErrors(Names(p.components), p.connections);
    EndpointErrorsMean(Names(p.components), p.connections);
    NoneInEmpty(ds);
    if ds == [] {
      forall c | c in p.connections
        ensures c.from in Names(p.components) && c.to in Names(p.components)
      {
        assert UnknownComponent(c.from) !in ds && UnknownComponent(c.to) !in ds;
      }
    }
  }

  lemma ConnectedGood(p: Pipeline)
    ensures ConnectedErrors(Ends(p.connections), p.components) == [] <==> Connected(p)
  {
    hide ConnectedErrors;
    var ds := ConnectedErrors(Ends(p.connections), p.components);
    ConnectedErrorsMean(Ends(p.connections), p.components);
    NoneInEmpty(ds);
    if ds == [] {
      forall x | x in p.components
        ensures exists c :: c in p.connections && (c.from == x.name || c.to == x.name)
      {
        assert DisconnectedComponent(x.name) !in ds;
        assert x.name in Names(p.components);
        assert x.name in Ends(p.connections);
      }
    }
  }

  lemma RolesGood(p: Pipeline)
    ensures RoleErrors(p.connections, p.components) == [] <==> RolesRespected(p)
  {
    hide RoleErrors;
    var ds := RoleErrors(p.connections, p.components);
    RoleErrorsMean(p.connections, p.components);
    NoneInEmpty(ds);
    if ds == [] {
      forall x, c | x in p.components && c in p.connections
        ensures (x.role == Source ==> c.to != x.name) && (x.role == Sink ==> c.from != x.name)
      {
        assert SourceHasIncoming(x.name) !in ds && SinkHasOutgoing(x.name) !in ds;
      }
    }
  }

  lemma ContractsGood(p: Pipeline)
    ensures ContractErrors(ComponentMap(p.components), p.connections) == [] <==> ContractsCompatible(p)
  {
    hide ContractErrors, ComponentMap, PackagesCompatible;
    var m := ComponentMap(p.components);
    var ds := ContractErrors(m, p.connections);
    ContractErrorsMean(m, p.connections);
    NoneInEmpty(ds);
    if ds == [] {
      forall c, a, b | c in p.connections && c.from in m && c.to in m && a in m[c.from].packages && b in m[c.to].packages
        ensures PackagesCompatible(a, b)
      {
        assert c == Connection(c.from, c.to);
        assert IncompatibleContract(c.from, c.to, a.name) !in ds;
      }
    }
  }

  lemma CapabilitiesGood(p: Pipeline)
    ensures CapabilityErrors(p, p.components) == [] <==> CapabilitiesGranted(p)
  {
    hide CapabilityErrors, GrantsOf;
    var ds := CapabilityErrors(p, p.components);
    CapabilityErrorsMean(p, p.components);
    NoneInEmpty(ds);
    if ds == [] {
      forall x, r | x in p.components && r in x.requiredCapabilities
        ensures r in GrantsOf(p, x.name)
      {
        assert UnmetCapability(x.name, r) !in ds;
      }
    }
  }

  lemma MajorsGood(n: string, versions: seq<Version>)
    ensures MajorErrors(n, versions) == [] <==> forall v :: v in versions ==> versions != [] && v.major == versions[0].major
  {
    hide MajorErrors;
    MajorErrorsMean(n, versions);
    NoneInEmpty(MajorErrors(n, versions));
    if MajorErrors(n, versions) == [] {
      forall v | v in versions
        ensures v.major == versions[0].major
      {
        assert VersionRangeUnsatisfiable(n, versions[0], v) !in MajorErrors(n, versions);
      }
    }
  }

  lemma VersionsGood(p: Pipeline, ds: seq<Diagnostic>)
    requires var m := VersionMap(AllPackages(p.components)); forall d :: d in ds <==> exists n :: n in m && d in MajorErrors(n, m[n])
    ensures ds == [] <==> VersionsAgree(p)
  {
    hide MajorErrors, VersionMap, AllPackages, VersionsAgree;
    var m: map<string, seq<Version>> := VersionMap(AllPackages(p.components));
    MajorsAgree(p);
    NoneInEmpty(ds);
    forall n | n in m
      ensures MajorErrors(n, m[n]) == [] <==> forall v :: v in m[n] ==> m[n] != [] && v.major == m[n][0].major
    {
      MajorsGood(n, m[n]);
    }
    if ds == [] {
      forall n | n in m
        ensures MajorErrors(n, m[n]) == []
      {
        forall d
          ensures d !in MajorErrors(n, m[n])
        {
          assert d !in ds;
        }
        NoneInEmpty(MajorErrors(n, m[n]));
      }
    }
  }

  /** What each diagnostic but the cycle's claims of the pipeline. */
  ghost predicate Fault(p: Pipeline, d: Diagnostic) {
    match d
    case UnknownComponent(n) => n !in Names(p.components) && exists c :: c in p.connections && (c.from == n || c.to == n)
    case DisconnectedComponent(n) => n !in Ends(p.connections) && n in Names(p.components)
    case SourceHasIncoming(n) => HasIncoming(p.connections, n) && exists x :: x in p.components && x.name == n && x.role == Source
    case SinkHasOutgoing(n) => HasOutgoing(p.connections, n) && exists x :: x in p.components && x.name == n && x.role == Sink
    case PipelineCycle(start) => start in Names(p.components) && CycleFrom(Adjacency(p.connections), start)
    case IncompatibleContract(from, to, package) =>
      var m := ComponentMap(p.components);
      && Connection(from, to) in p.connections && from in m && to in m
      && exists a, b :: a in m[from].packages && b in m[to].packages && a.name == package && !PackagesCompatible(a, b)
    case UnmetCapability(component, capability) =>
      && capability !in GrantsOf(p, component)
      && exists x :: x in p.components && x.name == component && capability in x.requiredCapabilities
    case VersionRangeUnsatisfiable(package, first, other) =>
      var m := VersionMap(AllPackages(p.components));
      && package in m && m[package] != [] && first == m[package][0] && other in m[package] && other.major != first.major
  }

  ghost function TopologyErrors(p: Pipeline): seq<Diagnostic> {
    EndpointErrors(Names(p.components), p.connections) + ConnectedErrors(Ends(p.connections), p.components)
    + RoleErrors(p.connections, p.components)
  }

  ghost predicate TopologyGood(p: Pipeline) {
    EndpointsKnown(p) && Connected(p) && RolesRespected(p)
  }

  lemma TopologyErrorsMean(p: Pipeline)
    ensures forall d :: d in TopologyErrors(p) <==>
              Fault(p, d) && (d.UnknownComponent? || d.DisconnectedComponent? || d.SourceHasIncoming? || d.SinkHasOutgoing?)
    ensures TopologyErrors(p) == [] <==> TopologyGood(p)
  {
    hide EndpointErrors, ConnectedErrors, RoleErrors, EndpointsKnown, Connected, RolesRespected, HasIncoming, HasOutgoing, Ends, Names;
    EndpointErrorsMean(Names(p.components), p.connections);
    ConnectedErrorsMean(Ends(p.connections), p.components);
    RoleErrorsMean(p.connections, p.components);
    EndpointsGood(p);
    ConnectedGood(p);
    RolesGood(p);
  }

  method ValidateTopology(p: Pipeline, result: ValidationResult) returns (ghost cycle: seq<Diagnostic>)
    modifies result
    ensures result.diagnostics == old(result.diagnostics) + TopologyErrors(p) + cycle
    ensures cycle == [] <==> Acyclic(p)
    ensures cycle == [] || (|cycle| == 1 && cycle[0].PipelineCycle? && Fault(p, cycle[0]))
  {
    hide Acyclic, CycleFrom, PostOrder, Distinct, Reachable, EndpointErrors, ConnectedErrors, RoleErrors, Adjacency;
    CheckEndpoints(p, result);
    CheckConnected(p, result);
    CheckRoles(p, result);
    ghost var before := result.diagnostics;
    ghost var order := DetectCycles(p, result);
    cycle := result.diagnostics[|before|..];
  }

  lemma ContractsMean(p: Pipeline)
    ensures var ds := ContractErrors(ComponentMap(p.components), p.connections);
            && (forall d :: d in ds <==> Fault(p, d) && d.IncompatibleContract?)
            && (ds == [] <==> ContractsCompatible(p))
  {
    hide ContractErrors, ComponentMap, PackagesCompatible;
    ContractErrorsMean(ComponentMap(p.components), p.connections);
    ContractsGood(p);
  }

  lemma CapabilitiesMean(p: Pipeline)
    ensures var ds := CapabilityErrors(p, p.components);
            && (forall d :: d in ds <==> Fault(p, d) && d.UnmetCapability?)
            && (ds == [] <==> CapabilitiesGranted(p))
  {
    hide CapabilityErrors, GrantsOf;
    CapabilityErrorsMean(p, p.components);
    CapabilitiesGood(p);
  }

  lemma VersionsMean(p: Pipeline, ds: seq<Diagnostic>)
    requires var m := VersionMap(AllPackages(p.components)); forall d :: d in ds <==> exists n :: n in m && d in MajorErrors(n, m[n])
    ensures forall d :: d in ds <==> Fault(p, d) && d.VersionRangeUnsatisfiable?
    ensures ds == [] <==> VersionsAgree(p)
  {
    hide MajorErrors, VersionMap, AllPackages, VersionsAgree;
    var m: map<string, seq<Version>> := VersionMap(AllPackages(p.components));
    VersionsGood(p, ds);
    forall d
      ensures d in ds <==> Fault(p, d) && d.VersionRangeUnsatisfiable?
    {
      if d in ds {
        var n :| n in m && d in MajorErrors(n, m[n]);
        MajorErrorsMean(n, m[n]);
        assert d.VersionRangeUnsatisfiable? && d.package == n;
        assert Fault(p, d);
      }
      if Fault(p, d) && d.VersionRangeUnsatisfiable? {
        MajorErrorsMean(d.package, m[d.package]);
        assert d in MajorErrors(d.package, m[d.package]);
      }
    }
  }

  /** A pipeline is accepted exactly when it is well formed. Every diagnostic is of a fault the pipeline has,
      and every fault is reported, cycles excepted: of those at most one, and one if there is any. */
  method ValidatePipeline(p: Pipeline) returns (result: ValidationResult)
    ensures fresh(result)
    ensures result.IsOk() <==> WellFormed(p)
    ensures forall d :: d in result.diagnostics ==> Fault(p, d)
    ensures forall d :: Fault(p, d) && !d.PipelineCycle? ==> d in result.diagnostics
    ensures (exists d :: d in result.diagnostics && d.PipelineCycle?) <==> !Acyclic(p)
  {
    hide Acyclic, ContractsCompatible, VersionsAgree, MajorErrors, VersionMap, EndpointsKnown, Connected, RolesRespected,
      ContractErrors, CapabilityErrors, CapabilitiesGranted, TopologyErrors, Fault, ComponentMap, AllPackages;
    result := new ValidationResult();
    ghost var cycle := ValidateTopology(p, result);
    CheckContracts(p, result);
    CheckCapabilities(p, result);
    TopologyErrorsMean(p);
    ContractsMean(p);
    CapabilitiesMean(p);
    ghost var soFar := result.diagnostics;
    CheckVersions(p, result);
    ghost var versions := result.diagnostics[|soFar|..];
    VersionsMean(p, versions);
    assert result.diagnostics == soFar + versions;
    Assemble(p, result.diagnostics, cycle, versions);
  }

  lemma Assemble(p: Pipeline, all: seq<Diagnostic>, cycle: seq<Diagnostic>, versions: seq<Diagnostic>)
    requires all == TopologyErrors(p) + cycle + ContractErrors(ComponentMap(p.components), p.connections)
                    + CapabilityErrors(p, p.components) + versions
    requires cycle == [] || (|cycle| == 1 && cycle[0].PipelineCycle? && Fault(p, cycle[0]))
    requires forall d :: d in TopologyErrors(p) <==>
               Fault(p, d) && (d.UnknownComponent? || d.DisconnectedComponent? || d.SourceHasIncoming? || d.SinkHasOutgoing?)
    requires forall d :: d in ContractErrors(ComponentMap(p.components), p.connections) <==> Fault(p, d) && d.IncompatibleContract?
    requires forall d :: d in CapabilityErrors(p, p.components) <==> Fault(p, d) && d.UnmetCapability?
    requires forall d :: d in versions <==> Fault(p, d) && d.VersionRangeUnsatisfiable?
    ensures forall d :: d in all ==> Fault(p, d)
    ensures forall d :: Fault(p, d) && !d.PipelineCycle? ==> d in all
    ensures (exists d :: d in all && d.PipelineCycle?) <==> cycle != []
  {
    hide TopologyErrors, ContractErrors, CapabilityErrors, Fault, ComponentMap;
    if cycle != [] {
      assert cycle[0] in all;
    }
  }
}
