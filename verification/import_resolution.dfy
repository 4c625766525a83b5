/** Import resolution and linking (`torvyn-linker/src/resolver.rs`, `linker.rs`). */
module ImportResolution {
  import opened Wrappers
  import opened CycleSearch
  import opened PipelineValidation
  import opened Topology

  const HOST_PROVIDED_WASI: seq<string> := [
    "wasi:io/streams", "wasi:io/poll", "wasi:clocks/monotonic-clock", "wasi:clocks/wall-clock",
    "wasi:random/random", "wasi:random/insecure", "wasi:random/insecure-seed",
    "wasi:filesystem/types", "wasi:filesystem/preopens",
    "wasi:sockets/tcp", "wasi:sockets/udp", "wasi:sockets/ip-name-lookup",
    "wasi:cli/stdin", "wasi:cli/stdout", "wasi:cli/stderr", "wasi:cli/environment"]

  const HOST_PROVIDED_TORVYN: seq<string> := [
    "torvyn:resources/buffer-ops", "torvyn:runtime/flow-context", "torvyn:runtime/backpressure",
    "torvyn:capabilities/capability-query"]

  const CAPABILITY_GATED_WASI: seq<string> := [
    "wasi:filesystem/types", "wasi:filesystem/preopens",
    "wasi:sockets/tcp", "wasi:sockets/udp", "wasi:sockets/ip-name-lookup",
    "wasi:random/random", "wasi:random/insecure", "wasi:random/insecure-seed"]

  const WASI_TO_CAPABILITY: seq<(string, string)> := [
    ("wasi:filesystem/preopens", "wasi-filesystem-read"), ("wasi:filesystem/types", "wasi-filesystem-read"),
    ("wasi:sockets/tcp", "wasi-network-egress"), ("wasi:sockets/udp", "wasi-network-egress"),
    ("wasi:sockets/ip-name-lookup", "wasi-network-egress"),
    ("wasi:clocks/wall-clock", "wasi-clocks"), ("wasi:clocks/monotonic-clock", "wasi-clocks"),
    ("wasi:random/random", "wasi-random"), ("wasi:random/insecure", "wasi-random"), ("wasi:random/insecure-seed", "wasi-random")]

  datatype Resolution =
    | StreamConnection(provider: string, exportName: string)
    | HostWasi(interfaceName: string, gated: bool)
    | HostTorvyn(interfaceName: string)

  datatype ComponentResolution = ComponentResolution(component: string, resolved: map<string, Resolution>, unresolved: seq<string>)

  /** `str::contains`. */
  predicate Contains(s: string, part: string) {
    exists i :: 0 <= i <= |s| - |part| && OccursAt(s, part, i)
  }

  predicate OccursAt(s: string, part: string, i: nat) {
    i + |part| <= |s| && s[i..i + |part|] == part
  }

  /** A text contains a part exactly when it is the part with something before and something behind it. */
  lemma ContainsExactly(s: string, part: string)
    ensures Contains(s, part) <==> exists before, after :: s == before + part + after
  {
    if Contains(s, part) {
      var i :| 0 <= i <= |s| - |part| && OccursAt(s, part, i);
      assert s == s[..i] + part + s[i + |part|..];
    }
    if before, after :| s == before + part + after {
      assert OccursAt(s, part, |before|);
    }
  }

  predicate Matches(wanted: string, table: seq<string>) {
    exists k :: 0 <= k < |table| && Contains(wanted, table[k])
  }

  /** The nodes with an edge to `n`, one entry per edge, in edge order. */
  ghost function Upstreams(edges: seq<Edge>, n: string): seq<string> {
    if edges == [] then []
    else Upstreams(edges[..|edges| - 1], n) + if edges[|edges| - 1].to == n then [edges[|edges| - 1].from] else []
  }

  ghost predicate Offers(exports: map<string, seq<string>>, provider: string, wanted: string) {
    provider in exports && wanted in exports[provider]
  }

  ghost function Providers(upstreams: seq<string>, exports: map<string, seq<string>>, wanted: string): seq<string> {
    if upstreams == [] then []
    else
      Providers(upstreams[..|upstreams| - 1], exports, wanted)
      + if Offers(exports, upstreams[|upstreams| - 1], wanted) then [upstreams[|upstreams| - 1]] else []
  }

  // ---------------------------------------------------------------------------
  // What a link needs
  // ---------------------------------------------------------------------------

  predicate HostProvided(wanted: string) {
    Matches(wanted, HOST_PROVIDED_WASI) || Matches(wanted, HOST_PROVIDED_TORVYN)
  }

  /** The edges over which a connected component exports the wanted interface. */
  ghost function ProvidingEdges(edges: seq<Edge>, exports: map<string, seq<string>>, n: string, wanted: string): set<nat> {
    set i | 0 <= i < |edges| && edges[i].to == n && Offers(exports, edges[i].from, wanted)
  }

  ghost predicate HasOneProvider(g: Graph, exports: map<string, seq<string>>, n: string, wanted: string) {
    HostProvided(wanted) || |ProvidingEdges(g.edges, exports, n, wanted)| == 1
  }

  ghost predicate HasGrants(grants: seq<string>, wanted: string) {
    forall k :: 0 <= k < |WASI_TO_CAPABILITY| && Contains(wanted, WASI_TO_CAPABILITY[k].0) ==> WASI_TO_CAPABILITY[k].1 in grants
  }

  ghost function ImportsOf(imports: map<string, seq<string>>, n: string): seq<string> {
    if n in imports then imports[n] else []
  }

  ghost predicate ImportsProvided(g: Graph, imports: map<string, seq<string>>, exports: map<string, seq<string>>) {
    forall n :: n in g.nodes ==> forall w :: w in ImportsOf(imports, n) ==> HasOneProvider(g, exports, n, w)
  }

  ghost predicate ImportsGranted(g: Graph, imports: map<string, seq<string>>) {
    forall n :: n in g.nodes ==> forall w :: w in ImportsOf(imports, n) ==> HasGrants(g.nodes[n].grants, w)
  }

  // ---------------------------------------------------------------------------
  // Host interfaces and the grants they need, package by package
  // ---------------------------------------------------------------------------

  const IO := {"wasi:io/streams", "wasi:io/poll"}
  const CLOCKS := {"wasi:clocks/wall-clock", "wasi:clocks/monotonic-clock"}
  const RANDOM := {"wasi:random/random", "wasi:random/insecure", "wasi:random/insecure-seed"}
  const FILESYSTEM := {"wasi:filesystem/preopens", "wasi:filesystem/types"}
  const SOCKETS := {"wasi:sockets/tcp", "wasi:sockets/udp", "wasi:sockets/ip-name-lookup"}
  const CLI := {"wasi:cli/stdin", "wasi:cli/stdout", "wasi:cli/stderr", "wasi:cli/environment"}
  const TORVYN := {
    "torvyn:resources/buffer-ops", "torvyn:runtime/flow-context", "torvyn:runtime/backpressure",
    "torvyn:capabilities/capability-query"}

  predicate Mentions(wanted: string, interfaces: set<string>) {
    exists i :: i in interfaces && Contains(wanted, i)
  }

  predicate MentionsWasi(wanted: string) {
    || Mentions(wanted, IO) || Mentions(wanted, CLOCKS) || Mentions(wanted, RANDOM)
    || Mentions(wanted, FILESYSTEM) || Mentions(wanted, SOCKETS) || Mentions(wanted, CLI)
  }

  /** The interfaces that answer with a denial at run time when the grant is missing. Clocks are not among them. */
  predicate MentionsGated(wanted: string) {
    Mentions(wanted, FILESYSTEM) || Mentions(wanted, SOCKETS) || Mentions(wanted, RANDOM)
  }

  /** An import needs a capability. */
  predicate Needs(wanted: string, capability: string) {
    || (capability == "wasi-filesystem-read" && Mentions(wanted, FILESYSTEM))
    || (capability == "wasi-network-egress" && Mentions(wanted, SOCKETS))
    || (capability == "wasi-clocks" && Mentions(wanted, CLOCKS))
    || (capability == "wasi-random" && Mentions(wanted, RANDOM))
  }

  predicate Listed(w: string, capability: string) {
    exists k :: 0 <= k < |WASI_TO_CAPABILITY| && Contains(w, WASI_TO_CAPABILITY[k].0) && WASI_TO_CAPABILITY[k].1 == capability
  }

  lemma RowsMean(w: string)
    ensures Mentions(w, FILESYSTEM) <==> Contains(w, WASI_TO_CAPABILITY[0].0) || Contains(w, WASI_TO_CAPABILITY[1].0)
    ensures Mentions(w, SOCKETS) <==>
            Contains(w, WASI_TO_CAPABILITY[2].0) || Contains(w, WASI_TO_CAPABILITY[3].0) || Contains(w, WASI_TO_CAPABILITY[4].0)
    ensures Mentions(w, CLOCKS) <==> Contains(w, WASI_TO_CAPABILITY[5].0) || Contains(w, WASI_TO_CAPABILITY[6].0)
    ensures Mentions(w, RANDOM) <==>
            Contains(w, WASI_TO_CAPABILITY[7].0) || Contains(w, WASI_TO_CAPABILITY[8].0) || Contains(w, WASI_TO_CAPABILITY[9].0)
  {
    hide Contains;
    assert WASI_TO_CAPABILITY[0].0 in FILESYSTEM && WASI_TO_CAPABILITY[1].0 in FILESYSTEM;
    assert WASI_TO_CAPABILITY[2].0 in SOCKETS && WASI_TO_CAPABILITY[3].0 in SOCKETS && WASI_TO_CAPABILITY[4].0 in SOCKETS;
    assert WASI_TO_CAPABILITY[5].0 in CLOCKS && WASI_TO_CAPABILITY[6].0 in CLOCKS;
    assert WASI_TO_CAPABILITY[7].0 in RANDOM && WASI_TO_CAPABILITY[8].0 in RANDOM && WASI_TO_CAPABILITY[9].0 in RANDOM;
  }

  /** The table asks for exactly the capabilities an import needs. */
  lemma ListedIsNeeded(w: string, capability: string)
    ensures Listed(w, capability) <==> Needs(w, capability)
  {
    hide Contains, Mentions;
    RowsMean(w);
    assert |WASI_TO_CAPABILITY| == 10;
    if Needs(w, capability) {
      assert exists k :: 0 <= k < 10 && Contains(w, WASI_TO_CAPABILITY[k].0) && WASI_TO_CAPABILITY[k].1 == capability;
    }
  }

  /** Which grants suffice for an import, whatever its text: those of the packages it mentions, and none if it
      mentions none of the four. */
  lemma GrantsNeeded(grants: seq<string>, w: string)
    ensures HasGrants(grants, w) <==>
            && (Mentions(w, FILESYSTEM) ==> "wasi-filesystem-read" in grants)
            && (Mentions(w, SOCKETS) ==> "wasi-network-egress" in grants)
            && (Mentions(w, CLOCKS) ==> "wasi-clocks" in grants)
            && (Mentions(w, RANDOM) ==> "wasi-random" in grants)
  {
    hide Contains, Mentions;
    RowsMean(w);
    assert |WASI_TO_CAPABILITY| == 10;
  }

  lemma GatedMeans(w: string)
    ensures Matches(w, CAPABILITY_GATED_WASI) <==> MentionsGated(w)
  {
    hide Contains;
    assert |CAPABILITY_GATED_WASI| == 8;
    assert forall i :: i in FILESYSTEM + SOCKETS + RANDOM <==> i in CAPABILITY_GATED_WASI;
    MatchesMeans(w, CAPABILITY_GATED_WASI, FILESYSTEM + SOCKETS + RANDOM);
  }

  lemma MatchesMeans(w: string, table: seq<string>, interfaces: set<string>)
    requires forall i :: i in interfaces <==> i in table
    ensures Matches(w, table) <==> Mentions(w, interfaces)
  {
    hide Contains;
  }

  /** The host offers exactly what mentions one of its packages' interfaces. */
  lemma HostMeans(w: string)
    ensures Matches(w, HOST_PROVIDED_WASI) <==> MentionsWasi(w)
    ensures Matches(w, HOST_PROVIDED_TORVYN) <==> Mentions(w, TORVYN)
  {
    hide Contains, Matches;
    HostTables();
    MatchesMeans(w, HOST_PROVIDED_WASI, IO + CLOCKS + RANDOM + FILESYSTEM + SOCKETS + CLI);
    MatchesMeans(w, HOST_PROVIDED_TORVYN, TORVYN);
    hide Mentions;
    MentionsBoth(w, IO + CLOCKS + RANDOM + FILESYSTEM + SOCKETS, CLI);
    MentionsBoth(w, IO + CLOCKS + RANDOM + FILESYSTEM, SOCKETS);
    MentionsBoth(w, IO + CLOCKS + RANDOM, FILESYSTEM);
    MentionsBoth(w, IO + CLOCKS, RANDOM);
    MentionsBoth(w, IO, CLOCKS);
  }

  lemma MentionsBoth(w: string, a: set<string>, b: set<string>)
    ensures Mentions(w, a + b) <==> Mentions(w, a) || Mentions(w, b)
  {
    hide Contains;
  }

  lemma HostTables()
    ensures forall i :: i in IO + CLOCKS + RANDOM + FILESYSTEM + SOCKETS + CLI <==> i in HOST_PROVIDED_WASI
    ensures forall i :: i in TORVYN <==> i in HOST_PROVIDED_TORVYN
  {
    var t := HOST_PROVIDED_WASI;
    assert |t| == 16 && |HOST_PROVIDED_TORVYN| == 4;
    assert IO == {t[0], t[1]} && CLOCKS == {t[2], t[3]} && RANDOM == {t[4], t[5], t[6]};
    assert FILESYSTEM == {t[7], t[8]} && SOCKETS == {t[9], t[10], t[11]};
    assert CLI == {t[12], t[13], t[14], t[15]};
  }

  // ---------------------------------------------------------------------------
  // Resolution
  // ---------------------------------------------------------------------------

  class LinkReport {
    var errors: seq<LinkError>

    constructor ()
      ensures errors == []
    {
      errors := [];
    }

    method PushError(e: LinkError)
      modifies this
      ensures errors == old(errors) + [e]
    {
      errors := errors + [e];
    }

    predicate IsOk()
      reads this
    {
      errors == []
    }
  }

  method BuildUpstreamMap(edges: seq<Edge>) returns (upstream: map<string, seq<string>>)
    ensures forall n :: Upstreams(edges, n) == if n in upstream then upstream[n] else []
  {
    upstream := map[];
    for i := 0 to |edges|
      invariant forall n :: Upstreams(edges[..i], n) == if n in upstream then upstream[n] else []
    {
      var e := edges[i];
      assert edges[..i + 1][..i] == edges[..i];
      upstream := upstream[e.to := (if e.to in upstream then upstream[e.to] else []) + [e.from]];
    }
    assert edges[..|edges|] == edges;
  }

  /** What an import resolves to, given the providers found: the host first, then the first provider. */
  ghost function Resolve(wanted: string, providers: seq<string>): Option<Resolution> {
    if Matches(wanted, HOST_PROVIDED_WASI) then Some(HostWasi(wanted, Matches(wanted, CAPABILITY_GATED_WASI)))
    else if Matches(wanted, HOST_PROVIDED_TORVYN) then Some(HostTorvyn(wanted))
    else if providers == [] then None
    else Some(StreamConnection(providers[0], wanted))
  }

  ghost function ResolveErrors(n: string, wanted: string, providers: seq<string>): seq<LinkError> {
    if HostProvided(wanted) || |providers| == 1 then []
    else if providers == [] then [UnresolvedImport(n, wanted)]
    else [AmbiguousProvider(n, wanted)]
  }

  method ResolveSingleImport(wanted: string, n: string, upstreams: seq<string>, exports: map<string, seq<string>>, report: LinkReport)
    returns (r: Option<Resolution>)
    modifies report
    ensures r == Resolve(wanted, Providers(upstreams, exports, wanted))
    ensures r.Some? ==> report.errors == old(report.errors) + ResolveErrors(n, wanted, Providers(upstreams, exports, wanted))
    ensures r.None? ==> report.errors == old(report.errors) && ResolveErrors(n, wanted, Providers(upstreams, exports, wanted)) == [UnresolvedImport(n, wanted)]
  {
    hide Matches;
    if Matches(wanted, HOST_PROVIDED_WASI) {
      return Some(HostWasi(wanted, Matches(wanted, CAPABILITY_GATED_WASI)));
    }
    if Matches(wanted, HOST_PROVIDED_TORVYN) {
      return Some(HostTorvyn(wanted));
    }
    var providers: seq<string> := [];
    for i := 0 to |upstreams|
      invariant providers == Providers(upstreams[..i], exports, wanted)
    {
      assert upstreams[..i + 1][..i] == upstreams[..i];
      if upstreams[i] in exports && wanted in exports[upstreams[i]] {
        providers := providers + [upstreams[i]];
      }
    }
    assert upstreams[..|upstreams|] == upstreams;
    if |providers| == 0 {
      return None;
    }
    if |providers| > 1 {
      report.PushError(AmbiguousProvider(n, wanted));
    }
    return Some(StreamConnection(providers[0], wanted));
  }

  /** The errors of one component's imports, in order. */
  ghost function ComponentErrors(n: string, wanted: seq<string>, upstreams: seq<string>, exports: map<string, seq<string>>): seq<LinkError> {
    if wanted == [] then []
    else
      var last := wanted[|wanted| - 1];
      ComponentErrors(n, wanted[..|wanted| - 1], upstreams, exports) + ResolveErrors(n, last, Providers(upstreams, exports, last))
  }

  ghost predicate ResolvedTo(c: ComponentResolution, n: string, wanted: seq<string>, upstreams: seq<string>, exports: map<string, seq<string>>) {
    && c.component == n
    && (forall w :: w in c.resolved <==> w in wanted && Resolve(w, Providers(upstreams, exports, w)).Some?)
    && (forall w :: w in c.resolved ==> Some(c.resolved[w]) == Resolve(w, Providers(upstreams, exports, w)))
    && (forall w :: w in c.unresolved <==> w in wanted && Resolve(w, Providers(upstreams, exports, w)).None?)
  }

  method ResolveComponent(n: string, wanted: seq<string>, upstreams: seq<string>, exports: map<string, seq<string>>, report: LinkReport)
    returns (c: ComponentResolution)
    modifies report
    ensures report.errors == old(report.errors) + ComponentErrors(n, wanted, upstreams, exports)
    ensures ResolvedTo(c, n, wanted, upstreams, exports)
  {
    hide Resolve, ResolveErrors, Providers, ResolvedTo;
    c := ComponentResolution(n, map[], []);
    NothingResolved(n, upstreams, exports);
    for i := 0 to |wanted|
      invariant report.errors == old(report.errors) + ComponentErrors(n, wanted[..i], upstreams, exports)
      invariant ResolvedTo(c, n, wanted[..i], upstreams, exports)
    {
      var w := wanted[i];
      assert wanted[..i + 1][..i] == wanted[..i];
      assert wanted[..i + 1] == wanted[..i] + [w];
      var r := ResolveSingleImport(w, n, upstreams, exports, report);
      ResolvedGrows(c, n, wanted[..i], upstreams, exports, w);
      if r.Some? {
        c := c.(resolved := c.resolved[w := r.value]);
      } else {
        c := c.(unresolved := c.unresolved + [w]);
        report.PushError(UnresolvedImport(n, w));
      }
    }
    assert wanted[..|wanted|] == wanted;
  }

  lemma NothingResolved(n: string, upstreams: seq<string>, exports: map<string, seq<string>>)
    ensures ResolvedTo(ComponentResolution(n, map[], []), n, [], upstreams, exports)
  {
  }

  lemma ResolvedGrows(c: ComponentResolution, n: string, wanted: seq<string>, upstreams: seq<string>, exports: map<string, seq<string>>, w: string)
    requires ResolvedTo(c, n, wanted, upstreams, exports)
    ensures match Resolve(w, Providers(upstreams, exports, w))
            case Some(r) => ResolvedTo(c.(resolved := c.resolved[w := r]), n, wanted + [w], upstreams, exports)
            case None => ResolvedTo(c.(unresolved := c.unresolved + [w]), n, wanted + [w], upstreams, exports)
  {
    hide Resolve, Providers;
  }

  /** Per node of the order, its resolution. */
  ghost predicate AllResolved(cs: seq<ComponentResolution>, order: seq<string>, g: Graph, imports: map<string, seq<string>>,
                              exports: map<string, seq<string>>)
  {
    && |cs| == |order|
    && forall i :: 0 <= i < |order| ==> ResolvedTo(cs[i], order[i], ImportsOf(imports, order[i]), Upstreams(g.edges, order[i]), exports)
  }

  ghost function OrderErrors(order: seq<string>, g: Graph, imports: map<string, seq<string>>, exports: map<string, seq<string>>): seq<LinkError> {
    if order == [] then []
    else
      var n := order[|order| - 1];
      OrderErrors(order[..|order| - 1], g, imports, exports) + ComponentErrors(n, ImportsOf(imports, n), Upstreams(g.edges, n), exports)
  }

  method ResolveImports(g: Graph, order: seq<string>, imports: map<string, seq<string>>, exports: map<string, seq<string>>, report: LinkReport)
    returns (cs: seq<ComponentResolution>)
    modifies report
    ensures AllResolved(cs, order, g, imports, exports)
    ensures report.errors == old(report.errors) + OrderErrors(order, g, imports, exports)
  {
    hide ResolvedTo, ComponentErrors, Upstreams, AllResolved, OrderErrors;
    var upstream := BuildUpstreamMap(g.edges);
    cs := [];
    NoneResolved(g, imports, exports);
    for i := 0 to |order|
      invariant AllResolved(cs, order[..i], g, imports, exports)
      invariant report.errors == old(report.errors) + OrderErrors(order[..i], g, imports, exports)
    {
      var n := order[i];
      assert order[..i + 1] == order[..i] + [n];
      var c := ResolveComponent(n, if n in imports then imports[n] else [], if n in upstream then upstream[n] else [], exports, report);
      AllResolvedGrows(cs, order[..i], g, imports, exports, c, n);
      cs := cs + [c];
    }
    assert order[..|order|] == order;
  }

  lemma NoneResolved(g: Graph, imports: map<string, seq<string>>, exports: map<string, seq<string>>)
    ensures AllResolved([], [], g, imports, exports) && OrderErrors([], g, imports, exports) == []
  {
  }

  lemma AllResolvedGrows(cs: seq<ComponentResolution>, order: seq<string>, g: Graph, imports: map<string, seq<string>>,
                         exports: map<string, seq<string>>, c: ComponentResolution, n: string)
    requires AllResolved(cs, order, g, imports, exports)
    requires ResolvedTo(c, n, ImportsOf(imports, n), Upstreams(g.edges, n), exports)
    ensures AllResolved(cs + [c], order + [n], g, imports, exports)
    ensures OrderErrors(order + [n], g, imports, exports) ==
            OrderErrors(order, g, imports, exports) + ComponentErrors(n, ImportsOf(imports, n), Upstreams(g.edges, n), exports)
  {
    hide ResolvedTo, ComponentErrors, Upstreams;
    assert (order + [n])[..|order|] == order;
  }

  ghost function GrantErrors(n: string, w: string, grants: seq<string>, k: nat): seq<LinkError>
    requires k <= |WASI_TO_CAPABILITY|
  {
    if k == 0 then []
    else
      var (wasi, capability) := WASI_TO_CAPABILITY[k - 1];
      GrantErrors(n, w, grants, k - 1) + if Contains(w, wasi) && capability !in grants then [CapabilityDenied(n, w, capability)] else []
  }

  /** A component declares an import that needs a capability it is not granted. */
  ghost predicate Denied(g: Graph, imports: map<string, seq<string>>, e: LinkError) {
    && e.CapabilityDenied? && e.component in g.nodes && e.wanted in ImportsOf(imports, e.component)
    && Needs(e.wanted, e.capability) && e.capability !in g.nodes[e.component].grants
  }

  /** Whatever order the map yields the nodes in, there is an error exactly for each grant that is missing. */
  method CheckCapabilityGrants(g: Graph, imports: map<string, seq<string>>, report: LinkReport)
    modifies report
    ensures old(report.errors) <= report.errors
    ensures report.errors == old(report.errors) <==> ImportsGranted(g, imports)
    ensures forall e :: e in report.errors[|old(report.errors)|..] <==> Denied(g, imports, e)
  {
    hide HasGrants, GrantErrors, Needs;
    var todo := g.nodes.Keys;
    while todo != {}
      invariant todo <= g.nodes.Keys
      invariant old(report.errors) <= report.errors
      invariant report.errors == old(report.errors) <==> forall n :: n in g.nodes && n !in todo ==> NodeGranted(g, imports, n)
      invariant forall e :: e in report.errors[|old(report.errors)|..] <==> Denied(g, imports, e) && e.component !in todo
      decreases |todo|
    {
      var n :| n in todo;
      CheckNodeGrants(g, imports, n, report);
      todo := todo - {n};
    }
  }

  ghost predicate NodeGranted(g: Graph, imports: map<string, seq<string>>, n: string)
    requires n in g.nodes
  {
    forall w :: w in ImportsOf(imports, n) ==> HasGrants(g.nodes[n].grants, w)
  }

  method CheckNodeGrants(g: Graph, imports: map<string, seq<string>>, n: string, report: LinkReport)
    requires n in g.nodes
    modifies report
    ensures old(report.errors) <= report.errors
    ensures report.errors == old(report.errors) <==> NodeGranted(g, imports, n)
    ensures forall e :: e in report.errors[|old(report.errors)|..] <==> Denied(g, imports, e) && e.component == n
  {
    hide HasGrants, GrantErrors, Needs;
    var wanted, grants := if n in imports then imports[n] else [], g.nodes[n].grants;
    for i := 0 to |wanted|
      invariant old(report.errors) <= report.errors
      invariant report.errors == old(report.errors) <==> forall k :: 0 <= k < i ==> HasGrants(grants, wanted[k])
      invariant forall e :: e in report.errors[|old(report.errors)|..] <==>
                  && e.CapabilityDenied? && e.component == n && e.wanted in wanted[..i]
                  && Needs(e.wanted, e.capability) && e.capability !in grants
    {
      assert wanted[..i + 1] == wanted[..i] + [wanted[i]];
      ghost var before := report.errors;
      CheckImportGrants(n, wanted[i], grants, report);
      GrantErrorsMean(n, wanted[i], grants);
      assert report.errors[|old(report.errors)|..] ==
             before[|old(report.errors)|..] + GrantErrors(n, wanted[i], grants, |WASI_TO_CAPABILITY|);
    }
  }

  method CheckImportGrants(n: string, w: string, grants: seq<string>, report: LinkReport)
    modifies report
    ensures report.errors == old(report.errors) + GrantErrors(n, w, grants, |WASI_TO_CAPABILITY|)
  {
    hide Contains;
    for k := 0 to |WASI_TO_CAPABILITY|
      invariant report.errors == old(report.errors) + GrantErrors(n, w, grants, k)
    {
      var (wasi, capability) := WASI_TO_CAPABILITY[k];
      if Contains(w, wasi) && capability !in grants {
        report.PushError(CapabilityDenied(n, w, capability));
      }
    }
  }

  lemma {:induction false} NoGrantErrors(n: string, w: string, grants: seq<string>, k: nat)
    requires k <= |WASI_TO_CAPABILITY|
    ensures GrantErrors(n, w, grants, k) == [] <==>
            forall j :: 0 <= j < k && Contains(w, WASI_TO_CAPABILITY[j].0) ==> WASI_TO_CAPABILITY[j].1 in grants
  {
    hide Contains, WASI_TO_CAPABILITY;
    if k > 0 {
      NoGrantErrors(n, w, grants, k - 1);
    }
  }

  lemma {:induction false} GrantErrorsAre(n: string, w: string, grants: seq<string>, k: nat, e: LinkError)
    requires k <= |WASI_TO_CAPABILITY|
    ensures e in GrantErrors(n, w, grants, k) <==>
            && e.CapabilityDenied? && e.component == n && e.wanted == w && e.capability !in grants
            && exists j :: 0 <= j < k && Contains(w, WASI_TO_CAPABILITY[j].0) && WASI_TO_CAPABILITY[j].1 == e.capability
  {
    hide Contains, WASI_TO_CAPABILITY;
    if k > 0 {
      GrantErrorsAre(n, w, grants, k - 1, e);
      var (wasi, capability) := WASI_TO_CAPABILITY[k - 1];
      assert e in GrantErrors(n, w, grants, k) <==>
             || e in GrantErrors(n, w, grants, k - 1)
             || (Contains(w, wasi) && capability !in grants && e == CapabilityDenied(n, w, capability));
    }
  }

  lemma GrantErrorsMean(n: string, w: string, grants: seq<string>)
    ensures GrantErrors(n, w, grants, |WASI_TO_CAPABILITY|) == [] <==> HasGrants(grants, w)
    ensures forall e :: e in GrantErrors(n, w, grants, |WASI_TO_CAPABILITY|) <==>
              e.CapabilityDenied? && e.component == n && e.wanted == w && e.capability !in grants && Needs(w, e.capability)
  {
    hide Contains, GrantErrors, Needs;
    NoGrantErrors(n, w, grants, |WASI_TO_CAPABILITY|);
    forall e { GrantErrorsAre(n, w, grants, |WASI_TO_CAPABILITY|, e); }
    forall c { ListedIsNeeded(w, c); }
  }

  // ---------------------------------------------------------------------------
  // What the errors mean
  // ---------------------------------------------------------------------------

  lemma {:induction false} OrderErrorsMean(order: seq<string>, g: Graph, imports: map<string, seq<string>>, exports: map<string, seq<string>>)
    ensures OrderErrors(order, g, imports, exports) == [] <==>
            forall n :: n in order ==> ComponentErrors(n, ImportsOf(imports, n), Upstreams(g.edges, n), exports) == []
  {
    hide ComponentErrors, Upstreams;
    if order != [] {
      OrderErrorsMean(order[..|order| - 1], g, imports, exports);
      assert order == order[..|order| - 1] + [order[|order| - 1]];
    }
  }

  lemma {:induction false} ComponentErrorsMean(n: string, wanted: seq<string>, upstreams: seq<string>, exports: map<string, seq<string>>)
    ensures ComponentErrors(n, wanted, upstreams, exports) == [] <==>
            forall w :: w in wanted ==> HostProvided(w) || |Providers(upstreams, exports, w)| == 1
  {
    hide Providers, HostProvided;
    if wanted != [] {
      ComponentErrorsMean(n, wanted[..|wanted| - 1], upstreams, exports);
      assert wanted == wanted[..|wanted| - 1] + [wanted[|wanted| - 1]];
    }
  }

  lemma ProvidersSnoc(upstreams: seq<string>, exports: map<string, seq<string>>, u: string, w: string)
    ensures Providers(upstreams + [u], exports, w) == Providers(upstreams, exports, w) + if Offers(exports, u, w) then [u] else []
  {
    assert (upstreams + [u])[..|upstreams|] == upstreams;
  }

  lemma ProvidingEdgesSnoc(edges: seq<Edge>, exports: map<string, seq<string>>, n: string, e: Edge, w: string)
    ensures |ProvidingEdges(edges + [e], exports, n, w)| ==
            |ProvidingEdges(edges, exports, n, w)| + if e.to == n && Offers(exports, e.from, w) then 1 else 0
  {
    hide Offers;
    var before, after := ProvidingEdges(edges, exports, n, w), ProvidingEdges(edges + [e], exports, n, w);
    if e.to == n && Offers(exports, e.from, w) {
      assert after == before + {|edges|};
    } else {
      assert after == before;
    }
  }

  /** There is one provider in the list for each providing edge. */
  lemma {:induction false} ProvidersAreEdges(edges: seq<Edge>, exports: map<string, seq<string>>, n: string, w: string)
    ensures |Providers(Upstreams(edges, n), exports, w)| == |ProvidingEdges(edges, exports, n, w)|
    ensures forall u :: u in Providers(Upstreams(edges, n), exports, w) ==>
              Offers(exports, u, w) && exists e :: e in edges && e.to == n && e.from == u
  {
    hide Offers, ProvidingEdges, Providers;
    if edges == [] {
      NoEdgesNoProviders(exports, n, w);
    } else {
      var front, e := edges[..|edges| - 1], edges[|edges| - 1];
      ProvidersAreEdges(front, exports, n, w);
      assert edges == front + [e];
      ProvidingEdgesSnoc(front, exports, n, e, w);
      if e.to == n {
        ProvidersSnoc(Upstreams(front, n), exports, e.from, w);
      } else {
        assert Upstreams(edges, n) == Upstreams(front, n);
      }
    }
  }

  lemma NoEdgesNoProviders(exports: map<string, seq<string>>, n: string, w: string)
    ensures Providers([], exports, w) == [] && ProvidingEdges([], exports, n, w) == {}
  {
  }

  /** A component declares an import that the host does not offer and no connected component exports, or more
      than one edge provides. */
  ghost predicate Misprovided(g: Graph, imports: map<string, seq<string>>, exports: map<string, seq<string>>, e: LinkError) {
    && (e.UnresolvedImport? || e.AmbiguousProvider?)
    && e.component in g.nodes && e.wanted in ImportsOf(imports, e.component)
    && !MentionsWasi(e.wanted) && !Mentions(e.wanted, TORVYN)
    && var edges := |ProvidingEdges(g.edges, exports, e.component, e.wanted)|;
       if e.UnresolvedImport? then edges == 0 else edges > 1
  }

  lemma {:induction false} ComponentErrorsAre(n: string, wanted: seq<string>, upstreams: seq<string>, exports: map<string, seq<string>>, e: LinkError)
    ensures e in ComponentErrors(n, wanted, upstreams, exports) <==>
            exists w :: w in wanted && e in ResolveErrors(n, w, Providers(upstreams, exports, w))
  {
    hide ResolveErrors, Providers;
    if wanted != [] {
      var front, last := wanted[..|wanted| - 1], wanted[|wanted| - 1];
      ComponentErrorsAre(n, front, upstreams, exports, e);
      assert wanted == front + [last];
      assert e in ComponentErrors(n, wanted, upstreams, exports) <==>
             e in ComponentErrors(n, front, upstreams, exports) || e in ResolveErrors(n, last, Providers(upstreams, exports, last));
      assert (exists w :: w in wanted && e in ResolveErrors(n, w, Providers(upstreams, exports, w))) <==>
             (exists w :: w in front && e in ResolveErrors(n, w, Providers(upstreams, exports, w)))
             || e in ResolveErrors(n, last, Providers(upstreams, exports, last));
    }
  }

  lemma {:induction false} OrderErrorsAre(order: seq<string>, g: Graph, imports: map<string, seq<string>>, exports: map<string, seq<string>>, e: LinkError)
    ensures e in OrderErrors(order, g, imports, exports) <==>
            exists n :: n in order && e in ComponentErrors(n, ImportsOf(imports, n), Upstreams(g.edges, n), exports)
  {
    hide ComponentErrors, Upstreams, ImportsOf;
    if order != [] {
      OrderErrorsAre(order[..|order| - 1], g, imports, exports, e);
      assert order == order[..|order| - 1] + [order[|order| - 1]];
    }
  }

  lemma ResolveErrorsAre(g: Graph, exports: map<string, seq<string>>, n: string, w: string, e: LinkError)
    ensures e in ResolveErrors(n, w, Providers(Upstreams(g.edges, n), exports, w)) <==>
            && (e == UnresolvedImport(n, w) || e == AmbiguousProvider(n, w))
            && !MentionsWasi(w) && !Mentions(w, TORVYN)
            && var edges := |ProvidingEdges(g.edges, exports, n, w)|;
               if e.UnresolvedImport? then edges == 0 else edges > 1
  {
    hide Providers, Upstreams, ProvidingEdges, Matches, MentionsWasi, Mentions;
    HostMeans(w);
    ProvidersAreEdges(g.edges, exports, n, w);
  }

  /** Resolution reports exactly the imports that are not provided, and those that are more than once. */
  lemma ErrorsAreMisprovided(g: Graph, order: seq<string>, imports: map<string, seq<string>>, exports: map<string, seq<string>>)
    requires forall n :: n in order <==> n in g.nodes
    ensures forall e :: e in OrderErrors(order, g, imports, exports) <==> Misprovided(g, imports, exports, e)
  {
    hide OrderErrors, ComponentErrors, ResolveErrors, Providers, Upstreams, ProvidingEdges, MentionsWasi, Mentions;
    forall e
      ensures e in OrderErrors(order, g, imports, exports) <==> Misprovided(g, imports, exports, e)
    {
      OrderErrorsAre(order, g, imports, exports, e);
      forall n | n in order
        ensures e in ComponentErrors(n, ImportsOf(imports, n), Upstreams(g.edges, n), exports) <==>
                Misprovided(g, imports, exports, e) && e.component == n
      {
        ComponentErrorsAre(n, ImportsOf(imports, n), Upstreams(g.edges, n), exports, e);
        forall w { ResolveErrorsAre(g, exports, n, w, e); }
      }
    }
  }

  /** Resolution reports nothing exactly when every import has the host or exactly one edge to provide it. */
  lemma NoErrorsExactlyProvided(g: Graph, order: seq<string>, imports: map<string, seq<string>>, exports: map<string, seq<string>>)
    requires forall n :: n in order <==> n in g.nodes
    ensures OrderErrors(order, g, imports, exports) == [] <==> ImportsProvided(g, imports, exports)
  {
    hide HostProvided, Providers, Upstreams, ProvidingEdges, ComponentErrors, OrderErrors;
    OrderErrorsMean(order, g, imports, exports);
    forall n | n in order
      ensures ComponentErrors(n, ImportsOf(imports, n), Upstreams(g.edges, n), exports) == [] <==>
              forall w :: w in ImportsOf(imports, n) ==> HasOneProvider(g, exports, n, w)
    {
      ComponentErrorsMean(n, ImportsOf(imports, n), Upstreams(g.edges, n), exports);
      forall w | w in ImportsOf(imports, n)
        ensures |Providers(Upstreams(g.edges, n), exports, w)| == |ProvidingEdges(g.edges, exports, n, w)|
      {
        ProvidersAreEdges(g.edges, exports, n, w);
      }
    }
  }

  // ---------------------------------------------------------------------------
  // Linking
  // ---------------------------------------------------------------------------

  datatype LinkedComponent = LinkedComponent(name: string, role: Role, resolved: map<string, Resolution>, grants: seq<string>)

  datatype LinkedConnection = LinkedConnection(streamId: nat, edge: Edge)

  datatype LinkedPipeline = LinkedPipeline(name: string, components: seq<LinkedComponent>, connections: seq<LinkedConnection>, order: seq<string>)

  datatype LinkResult = Linked(pipeline: LinkedPipeline) | LinkFailed(errors: seq<LinkError>)

  /** The component is what its node and its resolution say. */
  ghost predicate LinkedTo(c: LinkedComponent, g: Graph, imports: map<string, seq<string>>, exports: map<string, seq<string>>) {
    && c.name in g.nodes && c.role == g.nodes[c.name].role && c.grants == g.nodes[c.name].grants
    && (forall w :: w in c.resolved ==> Some(c.resolved[w]) == Resolve(w, Providers(Upstreams(g.edges, c.name), exports, w)))
    && (forall w :: w in c.resolved ==> w in ImportsOf(imports, c.name))
    && (forall w :: w in ImportsOf(imports, c.name) && HasOneProvider(g, exports, c.name, w) ==> w in c.resolved)
  }

  lemma ResolvedIsLinked(c: ComponentResolution, n: string, g: Graph, imports: map<string, seq<string>>, exports: map<string, seq<string>>)
    requires n in g.nodes && ResolvedTo(c, n, ImportsOf(imports, n), Upstreams(g.edges, n), exports)
    ensures LinkedTo(LinkedComponent(n, g.nodes[n].role, c.resolved, g.nodes[n].grants), g, imports, exports)
  {
    hide Providers, Upstreams, Matches, ProvidingEdges;
    forall w | w in ImportsOf(imports, n) && HasOneProvider(g, exports, n, w)
      ensures w in c.resolved
    {
      ProvidersAreEdges(g.edges, exports, n, w);
    }
  }

  class PipelineLinker {
    var nextStreamId: nat

    constructor ()
      ensures nextStreamId == 0
    {
      nextStreamId := 0;
    }

    method AllocStreamId() returns (id: nat)
      modifies this
      ensures id == old(nextStreamId) && nextStreamId == old(nextStreamId) + 1
    {
      id := nextStreamId;
      nextStreamId := nextStreamId + 1;
    }

    method BuildLinkedPipeline(g: Graph, order: seq<string>, cs: seq<ComponentResolution>, ghost imports: map<string, seq<string>>,
                               ghost exports: map<string, seq<string>>)
      returns (p: LinkedPipeline)
      requires AllResolved(cs, order, g, imports, exports) && IsOrderOf(g, order)
      modifies this
      ensures p.name == g.name && p.order == order && |p.components| == |order|
      ensures forall i :: 0 <= i < |order| ==> p.components[i].name == order[i] && LinkedTo(p.components[i], g, imports, exports)
      ensures |p.connections| == |g.edges|
      ensures forall i :: 0 <= i < |g.edges| ==> p.connections[i] == LinkedConnection(old(nextStreamId) + i, g.edges[i])
      ensures nextStreamId == old(nextStreamId) + |g.edges|
    {
      hide ResolvedTo, LinkedTo, Topological;
      var components: seq<LinkedComponent> := [];
      for i := 0 to |order|
        invariant |components| == i && nextStreamId == old(nextStreamId)
        invariant forall k :: 0 <= k < i ==> components[k].name == order[k] && LinkedTo(components[k], g, imports, exports)
      {
        var n := order[i];
        assert ResolvedTo(cs[i], n, ImportsOf(imports, n), Upstreams(g.edges, n), exports);
        ResolvedIsLinked(cs[i], n, g, imports, exports);
        components := components + [LinkedComponent(n, g.nodes[n].role, cs[i].resolved, g.nodes[n].grants)];
      }
      var connections: seq<LinkedConnection> := [];
      for i := 0 to |g.edges|
        invariant |connections| == i && nextStreamId == old(nextStreamId) + i
        invariant forall k :: 0 <= k < i ==> connections[k] == LinkedConnection(old(nextStreamId) + k, g.edges[k])
      {
        var id := AllocStreamId();
        connections := connections + [LinkedConnection(id, g.edges[i])];
      }
      return LinkedPipeline(g.name, components, connections, order);
    }

    /** Linking succeeds exactly when the topology is valid, every import has exactly one provider and every
        gated import is granted. The source's "failed to compute topological order" is never reported. */
    method Link(g: Graph, imports: map<string, seq<string>>, exports: map<string, seq<string>>) returns (r: LinkResult)
      modifies this
      ensures r.Linked? <==> ValidGraph(g) && ImportsProvided(g, imports, exports) && ImportsGranted(g, imports)
      ensures r.Linked? ==> Proper(r.pipeline, g, imports, exports, old(nextStreamId)) && nextStreamId == old(nextStreamId) + |g.edges|
      ensures r.LinkFailed? ==> nextStreamId == old(nextStreamId) && r.errors != []
      ensures r.LinkFailed? && !ValidGraph(g) ==> forall e :: e in r.errors ==> Faulty(g, e)
      ensures r.LinkFailed? && ValidGraph(g) ==>
                forall e :: e in r.errors <==> Misprovided(g, imports, exports, e) || Denied(g, imports, e)
    {
      hide Misprovided, Denied, Faulty, ValidGraph, IsOrderOf, ImportsProvided, ImportsGranted, AllResolved, OrderErrors, LinkedTo, NoCycle;
      var invalid := Validate(g);
      if invalid != [] {
        return LinkFailed(invalid);
      }
      ValidGraphOrders(g);
      var ordered := TopologicalOrder(g);
      var order := ordered.value;
      OrderListsNodes(g, order);
      var report := new LinkReport();
      var cs := ResolveImports(g, order, imports, exports, report);
      NoErrorsExactlyProvided(g, order, imports, exports);
      ErrorsAreMisprovided(g, order, imports, exports);
      ghost var resolving := report.errors;
      CheckCapabilityGrants(g, imports, report);
      assert report.errors == resolving + report.errors[|resolving|..];
      if !report.IsOk() {
        return LinkFailed(report.errors);
      }
      var p := BuildLinkedPipeline(g, order, cs, imports, exports);
      return Linked(p);
    }

    /** Without interface metadata only the topology decides, and nothing is resolved. */
    method LinkTopologyOnly(g: Graph) returns (r: LinkResult)
      modifies this
      ensures r.Linked? <==> ValidGraph(g)
      ensures r.Linked? ==> Proper(r.pipeline, g, map[], map[], old(nextStreamId)) && nextStreamId == old(nextStreamId) + |g.edges|
      ensures r.LinkFailed? ==> nextStreamId == old(nextStreamId) && r.errors != [] && forall e :: e in r.errors ==> Faulty(g, e)
    {
      hide ValidGraph, IsOrderOf, AllResolved, OrderErrors, LinkedTo, NoCycle;
      var invalid := Validate(g);
      if invalid != [] {
        return LinkFailed(invalid);
      }
      ValidGraphOrders(g);
      var ordered := TopologicalOrder(g);
      var order := ordered.value;
      var report := new LinkReport();
      var cs := ResolveImports(g, order, map[], map[], report);
      var p := BuildLinkedPipeline(g, order, cs, map[], map[]);
      return Linked(p);
    }
  }

  lemma ValidGraphOrders(g: Graph)
    requires ValidGraph(g)
    ensures EdgesKnown(g) && NoCycle(g)
  {
    hide NoCycle, FanWithin;
  }

  lemma OrderListsNodes(g: Graph, order: seq<string>)
    requires IsOrderOf(g, order)
    ensures forall n :: n in order <==> n in g.nodes
  {
    hide Topological, Distinct;
  }

  /** A linked pipeline of the graph: its components in topological order, each resolved, and its edges under
      consecutive stream ids. */
  ghost predicate Proper(p: LinkedPipeline, g: Graph, imports: map<string, seq<string>>, exports: map<string, seq<string>>, firstId: nat) {
    && p.name == g.name && IsOrderOf(g, p.order) && |p.components| == |p.order|
    && (forall i :: 0 <= i < |p.order| ==> p.components[i].name == p.order[i] && LinkedTo(p.components[i], g, imports, exports))
    && |p.connections| == |g.edges|
    && (forall i :: 0 <= i < |g.edges| ==> p.connections[i] == LinkedConnection(firstId + i, g.edges[i]))
  }

  // ---------------------------------------------------------------------------
  // What a linked pipeline guarantees
  // ---------------------------------------------------------------------------

  /** Every declared import of a linked component is resolved, and nothing else is. */
  lemma ResolvedKeysAreImports(p: LinkedPipeline, g: Graph, imports: map<string, seq<string>>, exports: map<string, seq<string>>, firstId: nat, i: nat)
    requires Proper(p, g, imports, exports, firstId) && ImportsProvided(g, imports, exports) && i < |p.components|
    ensures forall w :: w in p.components[i].resolved <==> w in ImportsOf(imports, p.components[i].name)
  {
    hide Resolve, Providers, Upstreams, HasOneProvider, IsOrderOf;
  }

  /** A stream import is provided over an edge from a component that exports it and comes earlier in the
      order, and it is the only such edge. */
  lemma ProvidersPrecede(p: LinkedPipeline, g: Graph, imports: map<string, seq<string>>, exports: map<string, seq<string>>, firstId: nat, i: nat, w: string)
    requires Proper(p, g, imports, exports, firstId) && ImportsProvided(g, imports, exports) && i < |p.components|
    requires w in p.components[i].resolved && p.components[i].resolved[w].StreamConnection?
    ensures var r, n := p.components[i].resolved[w], p.components[i].name;
            && r.exportName == w && Offers(exports, r.provider, w)
            && r.provider in p.order[..i]
            && |ProvidingEdges(g.edges, exports, n, w)| == 1
  {
    hide Matches, ProvidingEdges, Offers;
    var n := p.components[i].name;
    var providers := Providers(Upstreams(g.edges, n), exports, w);
    ProvidersAreEdges(g.edges, exports, n, w);
    hide Providers, Upstreams;
    assert LinkedTo(p.components[i], g, imports, exports);
    assert Resolve(w, providers) == Some(p.components[i].resolved[w]);
    assert providers[0] in providers;
    assert HasOneProvider(g, exports, n, w);
  }

  /** Every import of a linked pipeline resolves as its text says: what mentions an interface of a WASI package to
      the host, flagged exactly when it mentions a file system, socket or random one; what mentions a host
      interface of the runtime to that; and anything else to a stream. */
  lemma ResolvedAsMentioned(p: LinkedPipeline, g: Graph, imports: map<string, seq<string>>, exports: map<string, seq<string>>, firstId: nat, i: nat, w: string)
    requires Proper(p, g, imports, exports, firstId) && i < |p.components| && w in p.components[i].resolved
    ensures var r := p.components[i].resolved[w];
            && (r.HostWasi? <==> MentionsWasi(w))
            && (r.HostWasi? ==> r.interfaceName == w && (r.gated <==> MentionsGated(w)))
            && (r.HostTorvyn? <==> !MentionsWasi(w) && Mentions(w, TORVYN))
            && (r.HostTorvyn? ==> r.interfaceName == w)
            && (r.StreamConnection? <==> !MentionsWasi(w) && !Mentions(w, TORVYN))
  {
    hide Matches, Providers, Upstreams, HasOneProvider, Mentions, MentionsWasi, MentionsGated, IsOrderOf;
    HostMeans(w);
    GatedMeans(w);
    assert LinkedTo(p.components[i], g, imports, exports);
  }

  /** Every component of a linked pipeline has the grants its imports need. */
  lemma ImportsAreGranted(p: LinkedPipeline, g: Graph, imports: map<string, seq<string>>, exports: map<string, seq<string>>, firstId: nat, i: nat, w: string)
    requires Proper(p, g, imports, exports, firstId) && ImportsGranted(g, imports) && i < |p.components|
    requires w in p.components[i].resolved
    ensures var grants := p.components[i].grants;
            && (Mentions(w, FILESYSTEM) ==> "wasi-filesystem-read" in grants)
            && (Mentions(w, SOCKETS) ==> "wasi-network-egress" in grants)
            && (Mentions(w, CLOCKS) ==> "wasi-clocks" in grants)
            && (Mentions(w, RANDOM) ==> "wasi-random" in grants)
  {
    hide Resolve, Providers, Upstreams, HasOneProvider, Mentions, HasGrants, IsOrderOf;
    assert LinkedTo(p.components[i], g, imports, exports);
    assert HasGrants(g.nodes[p.components[i].name].grants, w);
    GrantsNeeded(g.nodes[p.components[i].name].grants, w);
  }

  /** Every import of a linked pipeline that is flagged as capability-gated is granted to its component. */
  lemma GatedImportsAreGranted(p: LinkedPipeline, g: Graph, imports: map<string, seq<string>>, exports: map<string, seq<string>>, firstId: nat, i: nat, w: string)
    requires Proper(p, g, imports, exports, firstId) && ImportsGranted(g, imports) && i < |p.components|
    requires w in p.components[i].resolved && p.components[i].resolved[w] == HostWasi(w, true)
    ensures Mentions(w, FILESYSTEM) || Mentions(w, SOCKETS) || Mentions(w, RANDOM)
    ensures exists capability :: Needs(w, capability)
    ensures forall capability :: Needs(w, capability) ==> capability in p.components[i].grants
  {
    hide Proper, ImportsGranted, Mentions;
    ResolvedAsMentioned(p, g, imports, exports, firstId, i, w);
    ImportsAreGranted(p, g, imports, exports, firstId, i, w);
    assert Needs(w, "wasi-filesystem-read") || Needs(w, "wasi-network-egress") || Needs(w, "wasi-random");
  }

  /** Pipelines linked one after the other by the same linker never share a stream id. */
  lemma StreamIdsAreFresh(p: LinkedPipeline, q: LinkedPipeline, g: Graph, h: Graph, imports: map<string, seq<string>>,
                          exports: map<string, seq<string>>, firstId: nat)
    requires Proper(p, g, imports, exports, firstId) && Proper(q, h, imports, exports, firstId + |g.edges|)
    ensures forall i, j :: 0 <= i < |p.connections| && 0 <= j < |q.connections| ==> p.connections[i].streamId != q.connections[j].streamId
    ensures forall i, j :: 0 <= i < j < |p.connections| ==> p.connections[i].streamId != p.connections[j].streamId
  {
    hide IsOrderOf, LinkedTo;
  }
}
