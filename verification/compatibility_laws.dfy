/** What the compatibility verdict means: a preorder on packages, upgrades in chains, and clients. */
module CompatibilityLaws {
  import opened Compatibility

  // ---------------------------------------------------------------------------
  // The relation behind the verdict
  // ---------------------------------------------------------------------------

  predicate ExtendsSignature(was: Function, now: Function) {
    && |was.params| == |now.params|
    && (forall i :: 0 <= i < |was.params| ==> was.params[i].typ == now.params[i].typ)
    && was.result == now.result
  }

  predicate ExtendsTypeDef(was: TypeDef, now: TypeDef) {
    match was
    case Record(fields) => now.Record? && FieldMap(fields) == FieldMap(now.fields)
    case Variant(cases) =>
      now.Variant? && forall n :: n in CaseMap(cases) ==> n in CaseMap(now.cases) && CaseMap(cases)[n] == CaseMap(now.cases)[n]
    case Enum(names) => now.Enum? && forall n :: n in names ==> n in now.names
    case _ => SameKind(was, now)
  }

  predicate ExtendsFunctions(was: map<string, Function>, now: map<string, Function>) {
    forall f :: f in was ==> f in now && ExtendsSignature(was[f], now[f])
  }

  predicate ExtendsTypes(was: map<string, TypeDef>, now: map<string, TypeDef>) {
    forall t :: t in was ==> t in now && ExtendsTypeDef(was[t], now[t])
  }

  /** `now` offers all of `was`, unchanged; `strict` asks it of the resources too. */
  predicate ExtendsInterface(was: Interface, now: Interface, strict: bool) {
    && ExtendsFunctions(was.functions, now.functions)
    && ExtendsTypes(was.types, now.types)
    && (strict ==> forall r :: r in was.resources ==> r in now.resources)
  }

  predicate Extends(was: Package, now: Package, strict: bool) {
    && (forall i :: i in was.interfaces ==> i in now.interfaces && ExtendsInterface(was.interfaces[i], now.interfaces[i], strict))
    && was.worlds <= now.worlds
  }

  lemma ExtendsReflexive(p: Package, strict: bool)
    ensures Extends(p, p, strict)
  {
  }

  lemma ExtendsTypesTransitive(a: map<string, TypeDef>, b: map<string, TypeDef>, c: map<string, TypeDef>)
    requires ExtendsTypes(a, b) && ExtendsTypes(b, c)
    ensures ExtendsTypes(a, c)
  {
    forall t | t in a
      ensures t in c && ExtendsTypeDef(a[t], c[t])
    {
      assert ExtendsTypeDef(a[t], b[t]) && ExtendsTypeDef(b[t], c[t]);
    }
  }

  lemma ExtendsTransitive(a: Package, b: Package, c: Package, strict: bool)
    requires Extends(a, b, strict) && Extends(b, c, strict)
    ensures Extends(a, c, strict)
  {
    hide ExtendsTypes;
    forall i | i in a.interfaces
      ensures i in c.interfaces && ExtendsInterface(a.interfaces[i], c.interfaces[i], strict)
    {
      ExtendsTypesTransitive(a.interfaces[i].types, b.interfaces[i].types, c.interfaces[i].types);
    }
  }

  // ---------------------------------------------------------------------------
  // What the changes say about it
  // ---------------------------------------------------------------------------

  ghost predicate Harmless(changes: multiset<Change>) {
    forall c :: c in changes ==> c.Severity() != Breaking
  }

  lemma Sums(a: multiset<Change>, b: multiset<Change>)
    ensures Harmless(a + b) <==> Harmless(a) && Harmless(b)
    ensures a + b == multiset{} <==> a == multiset{} && b == multiset{}
  {
    assert forall c :: c in a + b <==> c in a || c in b;
    if a + b == multiset{} {
      assert forall c :: c !in a && c !in b;
    }
  }

  lemma EachSays(names: set<string>, kind: Kind, path: seq<string>)
    ensures Each(names, kind, path) == multiset{} <==> names == {}
    ensures Harmless(Each(names, kind, path)) <==> names == {} || SeverityOf(kind) != Breaking
  {
    if names != {} {
      var n :| n in names;
      assert Change(kind, path + [n]) in Each(names, kind, path);
    }
  }

  lemma {:induction false} AbsentSays(names: seq<string>, n: nat, other: seq<string>, kind: Kind, path: seq<string>)
    requires n <= |names|
    ensures Absent(names, n, other, kind, path) == multiset{} <==> forall i :: 0 <= i < n ==> names[i] in other
    ensures Harmless(Absent(names, n, other, kind, path)) <==>
            (forall i :: 0 <= i < n ==> names[i] in other) || SeverityOf(kind) != Breaking
  {
    if n > 0 {
      AbsentSays(names, n - 1, other, kind, path);
      var last := Change(kind, path + [names[n - 1]]);
      Sums(Absent(names, n - 1, other, kind, path), if names[n - 1] in other then multiset{} else multiset{last});
      assert last in multiset{last};
    }
  }

  lemma {:induction false} GatherSays(parts: map<string, multiset<Change>>)
    ensures Gather(parts) == multiset{} <==> forall k :: k in parts ==> parts[k] == multiset{}
    ensures Harmless(Gather(parts)) <==> forall k :: k in parts ==> Harmless(parts[k])
    decreases |parts|
  {
    hide Harmless;
    if parts != map[] {
      var p :| p in parts && Gather(parts) == parts[p] + Gather(parts - {p});
      GatherSays(parts - {p});
      Sums(parts[p], Gather(parts - {p}));
      assert forall k :: k in parts <==> k == p || k in parts - {p};
    } else {
      NothingIsHarmless();
    }
  }

  lemma NothingIsHarmless()
    ensures Harmless(multiset{})
  {
  }

  lemma OneSays(c: Change)
    ensures multiset{c} != multiset{} && (Harmless(multiset{c}) <==> c.Severity() != Breaking)
  {
    assert c in multiset{c};
  }

  lemma {:induction false} ParametersSay(was: seq<Field>, now: seq<Field>, n: nat, path: seq<string>)
    requires n <= |was| == |now|
    ensures Harmless(ParameterChanges(was, now, n, path)) <==> ParameterChanges(was, now, n, path) == multiset{}
    ensures ParameterChanges(was, now, n, path) == multiset{} <==> forall i :: 0 <= i < n ==> was[i].typ == now[i].typ
  {
    hide Harmless;
    if n > 0 {
      ParametersSay(was, now, n - 1, path);
      var last := Change(ParameterTypeChanged, path + [was[n - 1].name]);
      OneSays(last);
      NothingIsHarmless();
      Sums(ParameterChanges(was, now, n - 1, path), if was[n - 1].typ == now[n - 1].typ then multiset{} else multiset{last});
    } else {
      NothingIsHarmless();
    }
  }

  lemma SignatureSays(was: Function, now: Function, path: seq<string>)
    ensures Harmless(SignatureChanges(was, now, path)) <==> ExtendsSignature(was, now)
    ensures SignatureChanges(was, now, path) == multiset{} <==> ExtendsSignature(was, now)
  {
    hide Harmless, ParameterChanges;
    NothingIsHarmless();
    OneSays(Change(ParameterCountChanged, path));
    OneSays(Change(ReturnTypeChanged, path));
    var first := if |was.params| != |now.params| then multiset{Change(ParameterCountChanged, path)}
                 else ParameterChanges(was.params, now.params, |was.params|, path);
    if |was.params| == |now.params| {
      ParametersSay(was.params, now.params, |was.params|, path);
    }
    Sums(first, if was.result == now.result then multiset{} else multiset{Change(ReturnTypeChanged, path)});
  }

  /** Maps compared name by name: `gone`, `came` and `turned` as the checker reports them. */
  lemma MapsSay<T>(was: map<string, T>, now: map<string, T>, gone: Kind, came: Kind, turned: Kind, path: seq<string>)
    requires SeverityOf(gone) == Breaking && SeverityOf(turned) == Breaking
    ensures var changes := Each(was.Keys - now.Keys, gone, path) + Each(now.Keys - was.Keys, came, path)
                           + Each(Differing(was, now), turned, path);
            && (changes == multiset{} <==> was == now)
            && (Harmless(changes) <==>
                  && (forall n :: n in was ==> n in now && was[n] == now[n])
                  && (SeverityOf(came) == Breaking ==> now.Keys <= was.Keys))
  {
    hide Harmless, Each;
    EachSays(was.Keys - now.Keys, gone, path);
    EachSays(now.Keys - was.Keys, came, path);
    EachSays(Differing(was, now), turned, path);
    Sums(Each(was.Keys - now.Keys, gone, path), Each(now.Keys - was.Keys, came, path));
    Sums(Each(was.Keys - now.Keys, gone, path) + Each(now.Keys - was.Keys, came, path), Each(Differing(was, now), turned, path));
    MapsDiffer(was, now);
  }

  lemma MapsDiffer<T>(was: map<string, T>, now: map<string, T>)
    ensures was.Keys - now.Keys == {} && Differing(was, now) == {} <==> forall n :: n in was ==> n in now && was[n] == now[n]
    ensures was.Keys - now.Keys == {} && now.Keys - was.Keys == {} && Differing(was, now) == {} <==> was == now
  {
    if was.Keys - now.Keys == {} && Differing(was, now) == {} {
      forall n | n in was
        ensures n in now && was[n] == now[n]
      {
        assert n !in was.Keys - now.Keys && n !in Differing(was, now);
      }
      if now.Keys - was.Keys == {} {
        assert forall n :: n in now ==> n in was by {
          forall n | n in now
            ensures n in was
          {
            assert n !in now.Keys - was.Keys;
          }
        }
      }
    }
  }

  lemma Within<T>(a: set<T>, b: set<T>)
    ensures a - b == {} <==> forall x :: x in a ==> x in b
    ensures a - b == {} <==> a <= b
  {
    if a - b == {} {
      forall x | x in a
        ensures x in b
      {
        assert x !in a - b;
      }
    }
  }

  lemma RecordSays(was: seq<Field>, now: seq<Field>, path: seq<string>)
    ensures Harmless(RecordChanges(FieldMap(was), FieldMap(now), path)) <==> FieldMap(was) == FieldMap(now)
    ensures RecordChanges(FieldMap(was), FieldMap(now), path) == multiset{} <==> FieldMap(was) == FieldMap(now)
  {
    hide Harmless, Each, FieldMap, Differing;
    MapsSay(FieldMap(was), FieldMap(now), FieldRemoved, FieldAdded, FieldTypeChanged, path);
  }

  lemma VariantSays(was: seq<Case>, now: seq<Case>, path: seq<string>)
    ensures Harmless(VariantChanges(CaseMap(was), CaseMap(now), path)) <==> ExtendsTypeDef(Variant(was), Variant(now))
    ensures VariantChanges(CaseMap(was), CaseMap(now), path) == multiset{} <==> CaseMap(was) == CaseMap(now)
    ensures CaseMap(was) == CaseMap(now) <==> ExtendsTypeDef(Variant(was), Variant(now)) && ExtendsTypeDef(Variant(now), Variant(was))
  {
    hide Harmless, Each, CaseMap, Differing;
    MapsSay(CaseMap(was), CaseMap(now), CaseRemoved, CaseAdded, CaseTypeChanged, path);
  }

  lemma EnumSays(was: seq<string>, now: seq<string>, path: seq<string>)
    ensures var changes := Absent(was, |was|, now, EnumCaseRemoved, path) + Absent(now, |now|, was, EnumCaseAdded, path);
            && (Harmless(changes) <==> ExtendsTypeDef(Enum(was), Enum(now)))
            && (changes == multiset{} <==> ExtendsTypeDef(Enum(was), Enum(now)) && ExtendsTypeDef(Enum(now), Enum(was)))
  {
    hide Harmless, Absent;
    AbsentSays(was, |was|, now, EnumCaseRemoved, path);
    AbsentSays(now, |now|, was, EnumCaseAdded, path);
    Sums(Absent(was, |was|, now, EnumCaseRemoved, path), Absent(now, |now|, was, EnumCaseAdded, path));
    AllIn(was, now);
    AllIn(now, was);
  }

  lemma AllIn(a: seq<string>, b: seq<string>)
    ensures (forall x :: x in a ==> x in b) <==> forall i :: 0 <= i < |a| ==> a[i] in b
  {
  }

  lemma TypeDefSays(was: TypeDef, now: TypeDef, path: seq<string>)
    ensures Harmless(TypeDefChanges(was, now, path)) <==> ExtendsTypeDef(was, now)
    ensures TypeDefChanges(was, now, path) == multiset{} <==> ExtendsTypeDef(was, now) && ExtendsTypeDef(now, was)
  {
    hide Harmless, RecordChanges, VariantChanges, Absent, FieldMap, CaseMap;
    NothingIsHarmless();
    OneSays(Change(TypeKindChanged, path));
    if was.Record? && now.Record? {
      RecordSays(was.fields, now.fields, path);
    } else if was.Variant? && now.Variant? {
      VariantSays(was.cases, now.cases, path);
    } else if was.Enum? && now.Enum? {
      EnumSays(was.names, now.names, path);
    }
  }

  lemma FunctionsSay(was: map<string, Function>, now: map<string, Function>, path: seq<string>)
    ensures Harmless(FunctionChanges(was, now, path)) <==> ExtendsFunctions(was, now)
    ensures FunctionChanges(was, now, path) == multiset{} <==> ExtendsFunctions(was, now) && ExtendsFunctions(now, was)
  {
    hide Harmless, Each, Gather, SignatureChanges, ExtendsSignature;
    var shared := SharedSignatures(was, now, path);
    EachSays(was.Keys - now.Keys, FunctionRemoved, path);
    EachSays(now.Keys - was.Keys, FunctionAdded, path);
    GatherSays(shared);
    forall f | f in shared
      ensures Harmless(shared[f]) <==> ExtendsSignature(was[f], now[f])
      ensures shared[f] == multiset{} <==> ExtendsSignature(was[f], now[f])
      ensures ExtendsSignature(was[f], now[f]) <==> ExtendsSignature(now[f], was[f])
    {
      SignatureSays(was[f], now[f], path + [f]);
      SignatureSwaps(was[f], now[f]);
    }
    Sums(Each(was.Keys - now.Keys, FunctionRemoved, path), Each(now.Keys - was.Keys, FunctionAdded, path));
    Sums(Each(was.Keys - now.Keys, FunctionRemoved, path) + Each(now.Keys - was.Keys, FunctionAdded, path), Gather(shared));
    Within(was.Keys, now.Keys);
    Within(now.Keys, was.Keys);
    assert forall f :: f in shared <==> f in was && f in now;
  }

  lemma SignatureSwaps(was: Function, now: Function)
    ensures ExtendsSignature(was, now) <==> ExtendsSignature(now, was)
  {
  }

  lemma TypesSay(was: map<string, TypeDef>, now: map<string, TypeDef>, path: seq<string>)
    ensures Harmless(TypeChanges(was, now, path)) <==> ExtendsTypes(was, now)
    ensures TypeChanges(was, now, path) == multiset{} <==> ExtendsTypes(was, now) && ExtendsTypes(now, was)
  {
    hide Harmless, Each, Gather, TypeDefChanges, ExtendsTypeDef;
    var shared := SharedTypes(was, now, path);
    EachSays(was.Keys - now.Keys, TypeRemoved, path);
    EachSays(now.Keys - was.Keys, TypeAdded, path);
    GatherSays(shared);
    forall t | t in shared { TypeDefSays(was[t], now[t], path + [t]); }
    Sums(Gather(shared), Each(was.Keys - now.Keys, TypeRemoved, path));
    Sums(Gather(shared) + Each(was.Keys - now.Keys, TypeRemoved, path), Each(now.Keys - was.Keys, TypeAdded, path));
    Within(was.Keys, now.Keys);
    Within(now.Keys, was.Keys);
    assert forall t :: t in shared <==> t in was && t in now;
  }

  lemma InterfaceSays(was: Interface, now: Interface, path: seq<string>)
    ensures Harmless(InterfaceChanges(was, now, path)) <==> ExtendsInterface(was, now, true)
    ensures InterfaceChanges(was, now, path) == multiset{} <==> ExtendsInterface(was, now, true) && ExtendsInterface(now, was, false)
  {
    hide Harmless, FunctionChanges, Absent, TypeChanges, ExtendsFunctions, ExtendsTypes;
    var functions := FunctionChanges(was.functions, now.functions, path);
    var resources := Absent(was.resources, |was.resources|, now.resources, ResourceRemoved, path);
    var types := TypeChanges(was.types, now.types, path);
    FunctionsSay(was.functions, now.functions, path);
    AbsentSays(was.resources, |was.resources|, now.resources, ResourceRemoved, path);
    TypesSay(was.types, now.types, path);
    Sums(functions, resources);
    Sums(functions + resources, types);
    AllIn(was.resources, now.resources);
  }

  lemma InterfacesSay(was: map<string, Interface>, now: map<string, Interface>)
    ensures Harmless(Gather(SharedInterfaces(was, now))) <==>
            forall i :: i in was && i in now ==> ExtendsInterface(was[i], now[i], true)
    ensures Gather(SharedInterfaces(was, now)) == multiset{} <==>
            forall i :: i in was && i in now ==> ExtendsInterface(was[i], now[i], true) && ExtendsInterface(now[i], was[i], false)
  {
    hide Harmless, Gather, InterfaceChanges, ExtendsInterface;
    var shared := SharedInterfaces(was, now);
    GatherSays(shared);
    forall i | i in shared { InterfaceSays(was[i], now[i], [i]); }
    assert forall i :: i in shared <==> i in was && i in now;
  }

  lemma SetsSay(was: set<string>, now: set<string>, gone: Kind, came: Kind)
    requires SeverityOf(gone) == Breaking && SeverityOf(came) == Minor
    ensures Harmless(Each(was - now, gone, []) + Each(now - was, came, [])) <==> was <= now
    ensures Each(was - now, gone, []) + Each(now - was, came, []) == multiset{} <==> was == now
  {
    hide Harmless, Each;
    EachSays(was - now, gone, []);
    EachSays(now - was, came, []);
    Sums(Each(was - now, gone, []), Each(now - was, came, []));
    Within(was, now);
    Within(now, was);
  }

  /** No change is Breaking exactly when the new package extends the old one; there is no change at all
      exactly when each extends the other, resources aside in the second direction. */
  lemma PackageSays(was: Package, now: Package)
    ensures Harmless(Changes(was, now)) <==> Extends(was, now, true)
    ensures Changes(was, now) == multiset{} <==> Extends(was, now, true) && Extends(now, was, false)
  {
    hide Harmless, Each, Gather, SharedInterfaces, ExtendsInterface;
    var x := Each(was.interfaces.Keys - now.interfaces.Keys, InterfaceRemoved, []) + Each(now.interfaces.Keys - was.interfaces.Keys, InterfaceAdded, []);
    var y := Gather(SharedInterfaces(was.interfaces, now.interfaces));
    var z1, z2 := Each(was.worlds - now.worlds, WorldRemoved, []), Each(now.worlds - was.worlds, WorldAdded, []);
    SetsSay(was.interfaces.Keys, now.interfaces.Keys, InterfaceRemoved, InterfaceAdded);
    InterfacesSay(was.interfaces, now.interfaces);
    SetsSay(was.worlds, now.worlds, WorldRemoved, WorldAdded);
    Sums(x, y);
    Sums(x + y, z1 + z2);
    assert x + y + z1 + z2 == x + y + (z1 + z2);
    assert was.interfaces.Keys <= now.interfaces.Keys <==> forall i :: i in was.interfaces ==> i in now.interfaces;
    assert now.interfaces.Keys <= was.interfaces.Keys <==> forall i :: i in now.interfaces ==> i in was.interfaces;
  }

  // ---------------------------------------------------------------------------
  // Verdicts
  // ---------------------------------------------------------------------------

  /** The three verdicts, by the relation: Breaking exactly when the new package does not extend the old one,
      Compatible exactly when there is no change at all. */
  lemma VerdictMeans(was: Package, now: Package)
    ensures VerdictFor(was, now) == Incompatible <==> !Extends(was, now, true)
    ensures VerdictFor(was, now) == Compatible <==> Changes(was, now) == multiset{}
    ensures VerdictFor(was, now) == Compatible <==> Extends(was, now, true) && Extends(now, was, false)
  {
    hide Extends, Changes;
    PackageSays(was, now);
    var changes := Changes(was, now);
    if changes != multiset{} {
      var c :| c in changes;
      assert c.Severity() == Breaking || c.Severity() == Minor;
    }
  }

  function Rank(v: Verdict): nat {
    match v
    case Compatible => 0
    case CompatibleWithAdditions => 1
    case Incompatible => 2
  }

  lemma SamePackageIsCompatible(p: Package)
    ensures VerdictFor(p, p) == Compatible && Changes(p, p) == multiset{}
  {
    hide Extends, Changes, VerdictFor;
    ExtendsReflexive(p, true);
    ExtendsReflexive(p, false);
    VerdictMeans(p, p);
  }

  lemma StrictIsMore(was: Package, now: Package)
    requires Extends(was, now, true)
    ensures Extends(was, now, false)
  {
    hide ExtendsFunctions, ExtendsTypes;
  }

  /** If neither direction breaks anything, neither direction reports anything. */
  lemma TwoWaysIsNoChange(a: Package, b: Package)
    requires VerdictFor(a, b) != Incompatible && VerdictFor(b, a) != Incompatible
    ensures Changes(a, b) == multiset{} && Changes(b, a) == multiset{}
  {
    hide Extends, Changes, VerdictFor;
    VerdictMeans(a, b);
    VerdictMeans(b, a);
    StrictIsMore(a, b);
    StrictIsMore(b, a);
  }

  /** Two upgrades in a row are never worse than the worse of them. */
  lemma UpgradesCompose(a: Package, b: Package, c: Package)
    ensures Rank(VerdictFor(a, c)) <= if Rank(VerdictFor(a, b)) >= Rank(VerdictFor(b, c)) then Rank(VerdictFor(a, b)) else Rank(VerdictFor(b, c))
  {
    hide Extends, Changes, VerdictFor;
    VerdictMeans(a, b);
    VerdictMeans(b, c);
    VerdictMeans(a, c);
    if Extends(a, b, true) && Extends(b, c, true) {
      ExtendsTransitive(a, b, c, true);
      if Extends(b, a, false) && Extends(c, b, false) {
        ExtendsTransitive(c, b, a, false);
      }
    }
  }

  /** A whole chain of upgrades is never worse than its worst step. */
  lemma {:induction false} ChainsCompose(versions: seq<Package>, worst: nat)
    requires |versions| > 0
    requires forall i :: 0 <= i < |versions| - 1 ==> Rank(VerdictFor(versions[i], versions[i + 1])) <= worst
    ensures Rank(VerdictFor(versions[0], versions[|versions| - 1])) <= worst
  {
    hide VerdictFor;
    if |versions| == 1 {
      SamePackageIsCompatible(versions[0]);
    } else {
      ChainsCompose(versions[..|versions| - 1], worst);
      UpgradesCompose(versions[0], versions[|versions| - 2], versions[|versions| - 1]);
      assert Rank(VerdictFor(versions[|versions| - 2], versions[|versions| - 2 + 1])) <= worst;
    }
  }
}
