/** The WIT compatibility checker of `torvyn-contracts/src/compatibility.rs`: the structural comparison of two
    package versions and the changes it reports. */
module Compatibility {
  import opened Wrappers

  datatype ParsedType =
    | Primitive(name: string)
    | Named(name: string)
    | List(element: ParsedType)
    | Optional(element: ParsedType)
    | ResultOf(ok: Option<ParsedType>, err: Option<ParsedType>)
    | Tuple(elements: seq<ParsedType>)
    | Borrow(element: ParsedType)
    | Own(element: ParsedType)

  datatype Field = Field(name: string, typ: ParsedType)

  datatype Case = Case(name: string, typ: Option<ParsedType>)

  datatype TypeDef =
    | Record(fields: seq<Field>)
    | Variant(cases: seq<Case>)
    | Enum(names: seq<string>)
    | Flags(names: seq<string>)
    | Resource
    | Alias(target: ParsedType)

  datatype Function = Function(params: seq<Field>, result: Option<ParsedType>)

  datatype Interface = Interface(functions: map<string, Function>, types: map<string, TypeDef>, resources: seq<string>)

  /** The contents of a world are never compared, only whether it is there. */
  datatype Package = Package(interfaces: map<string, Interface>, worlds: set<string>)

  datatype Severity = Patch | Minor | Breaking

  datatype Kind =
    | InterfaceRemoved | InterfaceAdded
    | FunctionRemoved | FunctionAdded | ParameterCountChanged | ParameterTypeChanged | ReturnTypeChanged
    | ResourceRemoved
    | TypeRemoved | TypeAdded | TypeKindChanged
    | FieldRemoved | FieldAdded | FieldTypeChanged
    | CaseRemoved | CaseAdded | CaseTypeChanged
    | EnumCaseRemoved | EnumCaseAdded
    | WorldRemoved | WorldAdded

  function SeverityOf(k: Kind): Severity {
    match k
    case InterfaceAdded | FunctionAdded | TypeAdded | CaseAdded | EnumCaseAdded | WorldAdded => Minor
    case _ => Breaking
  }

  /** One entry of the report; `path` leads to the changed element. */
  datatype Change = Change(kind: Kind, path: seq<string>)
  {
    function Severity(): Severity {
      SeverityOf(kind)
    }
  }

  datatype Verdict = Compatible | CompatibleWithAdditions | Incompatible

  datatype Report = Report(verdict: Verdict, changes: seq<Change>)

  // ---------------------------------------------------------------------------
  // What is reported
  // ---------------------------------------------------------------------------

  /** One change of the kind for each name. */
  function Each(names: set<string>, kind: Kind, path: seq<string>): multiset<Change> {
    multiset(set n | n in names :: Change(kind, path + [n]))
  }

  /** One change for each of the first `n` entries of a list that is missing from the other; a name listed
      twice is reported twice. */
  function Absent(names: seq<string>, n: nat, other: seq<string>, kind: Kind, path: seq<string>): multiset<Change>
    requires n <= |names|
  {
    if n == 0 then multiset{}
    else Absent(names, n - 1, other, kind, path) +
         if names[n - 1] in other then multiset{} else multiset{Change(kind, path + [names[n - 1]])}
  }

  ghost function Gather(parts: map<string, multiset<Change>>): multiset<Change> {
    if parts == map[] then multiset{}
    else
      var k :| k in parts;
      parts[k] + Gather(parts - {k})
  }

  /** A list of named things collected into a map: the last of a name wins. */
  function FieldMap(fields: seq<Field>): map<string, ParsedType> {
    if fields == [] then map[] else FieldMap(fields[..|fields| - 1])[fields[|fields| - 1].name := fields[|fields| - 1].typ]
  }

  function CaseMap(cases: seq<Case>): map<string, Option<ParsedType>> {
    if cases == [] then map[] else CaseMap(cases[..|cases| - 1])[cases[|cases| - 1].name := cases[|cases| - 1].typ]
  }

  function Differing<T(==)>(was: map<string, T>, now: map<string, T>): set<string> {
    set n | n in was && n in now && was[n] != now[n]
  }

  function RecordChanges(was: map<string, ParsedType>, now: map<string, ParsedType>, path: seq<string>): multiset<Change> {
    Each(was.Keys - now.Keys, FieldRemoved, path) + Each(now.Keys - was.Keys, FieldAdded, path)
    + Each(Differing(was, now), FieldTypeChanged, path)
  }

  function VariantChanges(was: map<string, Option<ParsedType>>, now: map<string, Option<ParsedType>>, path: seq<string>)
    : multiset<Change>
  {
    Each(was.Keys - now.Keys, CaseRemoved, path) + Each(now.Keys - was.Keys, CaseAdded, path)
    + Each(Differing(was, now), CaseTypeChanged, path)
  }

  predicate SameKind(was: TypeDef, now: TypeDef) {
    match was
    case Record(_) => now.Record?
    case Variant(_) => now.Variant?
    case Enum(_) => now.Enum?
    case Flags(_) => now.Flags?
    case Resource => now.Resource?
    case Alias(_) => now.Alias?
  }

  function TypeDefChanges(was: TypeDef, now: TypeDef, path: seq<string>): multiset<Change> {
    if was.Record? && now.Record? then RecordChanges(FieldMap(was.fields), FieldMap(now.fields), path)
    else if was.Variant? && now.Variant? then VariantChanges(CaseMap(was.cases), CaseMap(now.cases), path)
    else if was.Enum? && now.Enum? then
      Absent(was.names, |was.names|, now.names, EnumCaseRemoved, path)
      + Absent(now.names, |now.names|, was.names, EnumCaseAdded, path)
    else if SameKind(was, now) then multiset{}
    else multiset{Change(TypeKindChanged, path)}
  }

  /** The first `n` parameters whose types differ. */
  function ParameterChanges(was: seq<Field>, now: seq<Field>, n: nat, path: seq<string>): multiset<Change>
    requires n <= |was| == |now|
  {
    if n == 0 then multiset{}
    else ParameterChanges(was, now, n - 1, path) +
         if was[n - 1].typ == now[n - 1].typ then multiset{} else multiset{Change(ParameterTypeChanged, path + [was[n - 1].name])}
  }

  function SignatureChanges(was: Function, now: Function, path: seq<string>): multiset<Change> {
    (if |was.params| != |now.params| then multiset{Change(ParameterCountChanged, path)}
     else ParameterChanges(was.params, now.params, |was.params|, path))
    + if was.result == now.result then multiset{} else multiset{Change(ReturnTypeChanged, path)}
  }

  ghost function SharedSignatures(was: map<string, Function>, now: map<string, Function>, path: seq<string>)
    : map<string, multiset<Change>>
  {
    map f | f in was.Keys && f in now.Keys :: SignatureChanges(was[f], now[f], path + [f])
  }

  ghost function SharedTypes(was: map<string, TypeDef>, now: map<string, TypeDef>, path: seq<string>): map<string, multiset<Change>> {
    map t | t in was.Keys && t in now.Keys :: TypeDefChanges(was[t], now[t], path + [t])
  }

  ghost function FunctionChanges(was: map<string, Function>, now: map<string, Function>, path: seq<string>): multiset<Change> {
    Each(was.Keys - now.Keys, FunctionRemoved, path) + Each(now.Keys - was.Keys, FunctionAdded, path)
    + Gather(SharedSignatures(was, now, path))
  }

  ghost function TypeChanges(was: map<string, TypeDef>, now: map<string, TypeDef>, path: seq<string>): multiset<Change> {
    Gather(SharedTypes(was, now, path)) + Each(was.Keys - now.Keys, TypeRemoved, path)
    + Each(now.Keys - was.Keys, TypeAdded, path)
  }

  ghost function InterfaceChanges(was: Interface, now: Interface, path: seq<string>): multiset<Change> {
    FunctionChanges(was.functions, now.functions, path)
    + Absent(was.resources, |was.resources|, now.resources, ResourceRemoved, path)
    + TypeChanges(was.types, now.types, path)
  }

  ghost function SharedInterfaces(was: map<string, Interface>, now: map<string, Interface>): map<string, multiset<Change>> {
    map i | i in was.Keys && i in now.Keys :: InterfaceChanges(was[i], now[i], [i])
  }

  /** Everything `check_compatibility` reports, however its hash maps are ordered. */
  ghost function Changes(was: Package, now: Package): multiset<Change> {
    Each(was.interfaces.Keys - now.interfaces.Keys, InterfaceRemoved, [])
    + Each(now.interfaces.Keys - was.interfaces.Keys, InterfaceAdded, [])
    + Gather(SharedInterfaces(was.interfaces, now.interfaces))
    + Each(was.worlds - now.worlds, WorldRemoved, []) + Each(now.worlds - was.worlds, WorldAdded, [])
  }

  ghost function VerdictOf(changes: multiset<Change>): Verdict {
    if exists c :: c in changes && c.Severity() == Breaking then Incompatible
    else if exists c :: c in changes && c.Severity() == Minor then CompatibleWithAdditions
    else Compatible
  }

  ghost function VerdictFor(was: Package, now: Package): Verdict {
    VerdictOf(Changes(was, now))
  }

  // ---------------------------------------------------------------------------
  // The checker
  // ---------------------------------------------------------------------------

  lemma EachGrows(names: set<string>, n: string, kind: Kind, path: seq<string>)
    requires n !in names
    ensures Each(names + {n}, kind, path) == Each(names, kind, path) + multiset{Change(kind, path + [n])}
  {
    var before := set m | m in names :: Change(kind, path + [m]);
    var after := set m | m in names + {n} :: Change(kind, path + [m]);
    assert after == before + {Change(kind, path + [n])};
    assert Change(kind, path + [n]) !in before by {
      forall m | m in names
        ensures path + [m] != path + [n]
      {
        assert (path + [m])[|path|] == m && (path + [n])[|path|] == n;
      }
    }
  }

  /** Reports each of `names` that `other` does not have, in whatever order the map yields them. */
  method ReportMissing(names: set<string>, other: set<string>, kind: Kind, path: seq<string>, changes: seq<Change>)
    returns (out: seq<Change>)
    ensures multiset(out) == multiset(changes) + Each(names - other, kind, path)
  {
    out := changes;
    var todo := names;
    assert Each({}, kind, path) == multiset{};
    while todo != {}
      invariant todo <= names
      invariant multiset(out) == multiset(changes) + Each((names - todo) - other, kind, path)
      decreases |todo|
    {
      var n :| n in todo;
      if n !in other {
        out := out + [Change(kind, path + [n])];
        EachGrows((names - todo) - other, n, kind, path);
        assert (names - (todo - {n})) - other == ((names - todo) - other) + {n};
      } else {
        assert (names - (todo - {n})) - other == (names - todo) - other;
      }
      todo := todo - {n};
    }
    assert (names - {}) - other == names - other;
  }

  method ReportDiffering<T(==)>(was: map<string, T>, now: map<string, T>, kind: Kind, path: seq<string>, changes: seq<Change>)
    returns (out: seq<Change>)
    ensures multiset(out) == multiset(changes) + Each(Differing(was, now), kind, path)
  {
    var same := set n | n in was && (n !in now || was[n] == now[n]);
    out := ReportMissing(was.Keys, same, kind, path, changes);
    assert was.Keys - same == Differing(was, now);
  }

  method ReportAbsent(names: seq<string>, other: seq<string>, kind: Kind, path: seq<string>, changes: seq<Change>)
    returns (out: seq<Change>)
    ensures multiset(out) == multiset(changes) + Absent(names, |names|, other, kind, path)
  {
    hide Absent;
    out := changes;
    AbsentGrows(names, 0, other, kind, path);
    for i := 0 to |names|
      invariant multiset(out) == multiset(changes) + Absent(names, i, other, kind, path)
    {
      AbsentGrows(names, i, other, kind, path);
      if names[i] !in other {
        out := out + [Change(kind, path + [names[i]])];
      }
    }
  }

  lemma AbsentGrows(names: seq<string>, n: nat, other: seq<string>, kind: Kind, path: seq<string>)
    requires n <= |names|
    ensures Absent(names, 0, other, kind, path) == multiset{}
    ensures n < |names| ==>
              Absent(names, n + 1, other, kind, path) ==
              Absent(names, n, other, kind, path) + if names[n] in other then multiset{} else multiset{Change(kind, path + [names[n]])}
  {
  }

  method CompareTypeDefs(was: TypeDef, now: TypeDef, path: seq<string>, changes: seq<Change>) returns (out: seq<Change>)
    ensures multiset(out) == multiset(changes) + TypeDefChanges(was, now, path)
  {
    hide Each, Differing, Absent;
    match (was, now) {
      case (Record(wasFields), Record(nowFields)) =>
        var wasMap, nowMap := FieldMap(wasFields), FieldMap(nowFields);
        out := ReportMissing(wasMap.Keys, nowMap.Keys, FieldRemoved, path, changes);
        out := ReportMissing(nowMap.Keys, wasMap.Keys, FieldAdded, path, out);
        out := ReportDiffering(wasMap, nowMap, FieldTypeChanged, path, out);
      case (Variant(wasCases), Variant(nowCases)) =>
        var wasMap, nowMap := CaseMap(wasCases), CaseMap(nowCases);
        out := ReportMissing(wasMap.Keys, nowMap.Keys, CaseRemoved, path, changes);
        out := ReportMissing(nowMap.Keys, wasMap.Keys, CaseAdded, path, out);
        out := ReportDiffering(wasMap, nowMap, CaseTypeChanged, path, out);
      case (Enum(wasNames), Enum(nowNames)) =>
        out := ReportAbsent(wasNames, nowNames, EnumCaseRemoved, path, changes);
        out := ReportAbsent(nowNames, wasNames, EnumCaseAdded, path, out);
      case (_, _) =>
        out := changes;
        if !SameKind(was, now) {
          out := out + [Change(TypeKindChanged, path)];
        }
    }
  }

  lemma {:induction false} GatherSplit(parts: map<string, multiset<Change>>, k: string)
    requires k in parts
    ensures Gather(parts) == parts[k] + Gather(parts - {k})
    decreases |parts|
  {
    var p :| p in parts && Gather(parts) == parts[p] + Gather(parts - {p});
    if p != k {
      GatherSplit(parts - {p}, k);
      GatherSplit(parts - {k}, p);
      assert parts - {p} - {k} == parts - {k} - {p};
    }
  }

  method CompareSignatures(was: Function, now: Function, path: seq<string>, changes: seq<Change>) returns (out: seq<Change>)
    ensures multiset(out) == multiset(changes) + SignatureChanges(was, now, path)
  {
    out := changes;
    if |was.params| != |now.params| {
      out := out + [Change(ParameterCountChanged, path)];
    } else {
      out := CompareParameters(was.params, now.params, path, out);
    }
    if was.result != now.result {
      out := out + [Change(ReturnTypeChanged, path)];
    }
  }

  method CompareParameters(was: seq<Field>, now: seq<Field>, path: seq<string>, changes: seq<Change>) returns (out: seq<Change>)
    requires |was| == |now|
    ensures multiset(out) == multiset(changes) + ParameterChanges(was, now, |was|, path)
  {
    hide ParameterChanges;
    out := changes;
    ParametersGrow(was, now, 0, path);
    for i := 0 to |was|
      invariant multiset(out) == multiset(changes) + ParameterChanges(was, now, i, path)
    {
      ParametersGrow(was, now, i, path);
      if was[i].typ != now[i].typ {
        out := out + [Change(ParameterTypeChanged, path + [was[i].name])];
      }
    }
  }

  lemma ParametersGrow(was: seq<Field>, now: seq<Field>, n: nat, path: seq<string>)
    requires n <= |was| == |now|
    ensures ParameterChanges(was, now, 0, path) == multiset{}
    ensures n < |was| ==>
              ParameterChanges(was, now, n + 1, path) ==
              ParameterChanges(was, now, n, path) +
              if was[n].typ == now[n].typ then multiset{} else multiset{Change(ParameterTypeChanged, path + [was[n].name])}
  {
  }

  ghost function Among(all: map<string, multiset<Change>>, keys: set<string>): map<string, multiset<Change>> {
    map k | k in all && k in keys :: all[k]
  }

  /** The part of a map still to come, and what it will add. */
  ghost predicate Pending(all: map<string, multiset<Change>>, todo: set<string>, changes: seq<Change>, out: seq<Change>) {
    && todo <= all.Keys
    && multiset(out) + Gather(Among(all, todo)) == multiset(changes) + Gather(all)
  }

  lemma PendingStarts(all: map<string, multiset<Change>>, changes: seq<Change>)
    ensures Pending(all, all.Keys, changes, changes)
  {
    assert Among(all, all.Keys) == all;
  }

  lemma PendingStep(all: map<string, multiset<Change>>, todo: set<string>, changes: seq<Change>, out: seq<Change>, n: string, next: seq<Change>)
    requires Pending(all, todo, changes, out) && n in todo && multiset(next) == multiset(out) + all[n]
    ensures Pending(all, todo - {n}, changes, next)
  {
    var left := Among(all, todo);
    GatherSplit(left, n);
    assert left - {n} == Among(all, todo - {n});
  }

  lemma PendingDone(all: map<string, multiset<Change>>, changes: seq<Change>, out: seq<Change>)
    requires Pending(all, {}, changes, out)
    ensures multiset(out) == multiset(changes) + Gather(all)
  {
    assert Among(all, {}) == map[];
  }

  method CompareFunctions(was: map<string, Function>, now: map<string, Function>, path: seq<string>, changes: seq<Change>)
    returns (out: seq<Change>)
    ensures multiset(out) == multiset(changes) + FunctionChanges(was, now, path)
  {
    hide Pending, Each, Gather, SignatureChanges;
    out := ReportMissing(was.Keys, now.Keys, FunctionRemoved, path, changes);
    out := ReportMissing(now.Keys, was.Keys, FunctionAdded, path, out);
    ghost var shared, start := SharedSignatures(was, now, path), out;
    var todo := set f | f in was.Keys && f in now.Keys;
    assert todo == shared.Keys;
    PendingStarts(shared, start);
    while todo != {}
      invariant todo <= shared.Keys
      invariant Pending(shared, todo, start, out)
      decreases |todo|
    {
      var f :| f in todo;
      var next := CompareSignatures(was[f], now[f], path + [f], out);
      PendingStep(shared, todo, start, out, f, next);
      out, todo := next, todo - {f};
    }
    PendingDone(shared, start, out);
  }

  method CompareTypes(was: map<string, TypeDef>, now: map<string, TypeDef>, path: seq<string>, changes: seq<Change>)
    returns (out: seq<Change>)
    ensures multiset(out) == multiset(changes) + TypeChanges(was, now, path)
  {
    hide Pending, Each, Gather, TypeDefChanges;
    ghost var shared := SharedTypes(was, now, path);
    var todo := set t | t in was.Keys && t in now.Keys;
    assert todo == shared.Keys;
    PendingStarts(shared, changes);
    out := changes;
    while todo != {}
      invariant todo <= shared.Keys
      invariant Pending(shared, todo, changes, out)
      decreases |todo|
    {
      var t :| t in todo;
      var next := CompareTypeDefs(was[t], now[t], path + [t], out);
      PendingStep(shared, todo, changes, out, t, next);
      out, todo := next, todo - {t};
    }
    PendingDone(shared, changes, out);
    out := ReportMissing(was.Keys, now.Keys, TypeRemoved, path, out);
    out := ReportMissing(now.Keys, was.Keys, TypeAdded, path, out);
  }

  method CompareInterfaceContents(was: Interface, now: Interface, path: seq<string>, changes: seq<Change>) returns (out: seq<Change>)
    ensures multiset(out) == multiset(changes) + InterfaceChanges(was, now, path)
  {
    hide FunctionChanges, Absent, TypeChanges;
    out := CompareFunctions(was.functions, now.functions, path, changes);
    out := ReportAbsent(was.resources, now.resources, ResourceRemoved, path, out);
    out := CompareTypes(was.types, now.types, path, out);
  }

  method CompareInterfaces(was: map<string, Interface>, now: map<string, Interface>, changes: seq<Change>) returns (out: seq<Change>)
    ensures multiset(out) ==
            multiset(changes) + Each(was.Keys - now.Keys, InterfaceRemoved, []) + Each(now.Keys - was.Keys, InterfaceAdded, [])
            + Gather(SharedInterfaces(was, now))
  {
    hide Pending, Each, Gather, InterfaceChanges;
    out := ReportMissing(was.Keys, now.Keys, InterfaceRemoved, [], changes);
    out := ReportMissing(now.Keys, was.Keys, InterfaceAdded, [], out);
    ghost var shared, start := SharedInterfaces(was, now), out;
    var todo := set i | i in was.Keys && i in now.Keys;
    assert todo == shared.Keys;
    PendingStarts(shared, start);
    while todo != {}
      invariant todo <= shared.Keys
      invariant Pending(shared, todo, start, out)
      decreases |todo|
    {
      var i :| i in todo;
      var next := CompareInterfaceContents(was[i], now[i], [i], out);
      PendingStep(shared, todo, start, out, i, next);
      out, todo := next, todo - {i};
    }
    PendingDone(shared, start, out);
  }

  method CheckCompatibility(was: Package, now: Package) returns (r: Report)
    ensures multiset(r.changes) == Changes(was, now)
    ensures r.verdict == VerdictFor(was, now)
  {
    hide Each, Gather, SharedInterfaces;
    var changes := CompareInterfaces(was.interfaces, now.interfaces, []);
    changes := ReportMissing(was.worlds, now.worlds, WorldRemoved, [], changes);
    changes := ReportMissing(now.worlds, was.worlds, WorldAdded, [], changes);
    assert multiset(changes) == Changes(was, now);
    assert forall c :: c in changes <==> c in Changes(was, now);
    var verdict :=
      if exists c :: c in changes && c.Severity() == Breaking then Incompatible
      else if exists c :: c in changes && c.Severity() == Minor then CompatibleWithAdditions
      else Compatible;
    return Report(verdict, changes);
  }
}
