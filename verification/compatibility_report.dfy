/** What the compatibility checker reports, change by change, said of the two packages alone. */
module CompatibilityReport {
  import opened Wrappers
  import opened Compatibility

  // ---------------------------------------------------------------------------
  // How often a change is in the report
  // ---------------------------------------------------------------------------

  function Once(b: bool): nat {
    if b then 1 else 0
  }

  predicate HasField(fields: seq<Field>, x: string) {
    exists k :: 0 <= k < |fields| && fields[k].name == x
  }

  /** The last field of the name has the type. */
  predicate FieldIs(fields: seq<Field>, x: string, t: ParsedType) {
    exists k :: 0 <= k < |fields| && fields[k] == Field(x, t) && forall j :: k < j < |fields| ==> fields[j].name != x
  }

  predicate HasCase(cases: seq<Case>, x: string) {
    exists k :: 0 <= k < |cases| && cases[k].name == x
  }

  predicate CaseIs(cases: seq<Case>, x: string, t: Option<ParsedType>) {
    exists k :: 0 <= k < |cases| && cases[k] == Case(x, t) && forall j :: k < j < |cases| ==> cases[j].name != x
  }

  /** Two definitions of a type, and what is reported of them under the path that leads to the type. */
  ghost function OfTypeDef(was: TypeDef, now: TypeDef, kind: Kind, rest: seq<string>): nat {
    match kind
    case TypeKindChanged =>
      Once(rest == [] && !( || (was.Record? && now.Record?) || (was.Variant? && now.Variant?) || (was.Enum? && now.Enum?)
                            || (was.Flags? && now.Flags?) || (was.Resource? && now.Resource?) || (was.Alias? && now.Alias?)))
    case FieldRemoved => Once(|rest| == 1 && was.Record? && now.Record? && HasField(was.fields, rest[0]) && !HasField(now.fields, rest[0]))
    case FieldAdded => Once(|rest| == 1 && was.Record? && now.Record? && !HasField(was.fields, rest[0]) && HasField(now.fields, rest[0]))
    case FieldTypeChanged =>
      Once(|rest| == 1 && was.Record? && now.Record?
           && exists t, u :: t != u && FieldIs(was.fields, rest[0], t) && FieldIs(now.fields, rest[0], u))
    case CaseRemoved => Once(|rest| == 1 && was.Variant? && now.Variant? && HasCase(was.cases, rest[0]) && !HasCase(now.cases, rest[0]))
    case CaseAdded => Once(|rest| == 1 && was.Variant? && now.Variant? && !HasCase(was.cases, rest[0]) && HasCase(now.cases, rest[0]))
    case CaseTypeChanged =>
      Once(|rest| == 1 && was.Variant? && now.Variant?
           && exists t, u :: t != u && CaseIs(was.cases, rest[0], t) && CaseIs(now.cases, rest[0], u))
    case EnumCaseRemoved =>
      if |rest| == 1 && was.Enum? && now.Enum? && rest[0] !in now.names then multiset(was.names)[rest[0]] else 0
    case EnumCaseAdded =>
      if |rest| == 1 && was.Enum? && now.Enum? && rest[0] !in was.names then multiset(now.names)[rest[0]] else 0
    case _ => 0
  }

  /** Two signatures of a function likewise. */
  ghost function OfSignature(was: Function, now: Function, kind: Kind, rest: seq<string>): nat {
    match kind
    case ParameterCountChanged => Once(rest == [] && |was.params| != |now.params|)
    case ParameterTypeChanged =>
      if |rest| == 1 && |was.params| == |now.params| then Retyped(was.params, now.params, |was.params|, rest[0]) else 0
    case ReturnTypeChanged => Once(rest == [] && was.result != now.result)
    case _ => 0
  }

  /** How many of the first `n` parameters have the name and another type. */
  function Retyped(was: seq<Field>, now: seq<Field>, n: nat, x: string): nat
    requires n <= |was| == |now|
  {
    |set k | 0 <= k < n && was[k].name == x && was[k].typ != now[k].typ|
  }

  ghost function OfFunctions(was: map<string, Function>, now: map<string, Function>, kind: Kind, rest: seq<string>): nat {
    if rest == [] then 0
    else
      var f := rest[0];
      match kind
      case FunctionRemoved => Once(|rest| == 1 && f in was && f !in now)
      case FunctionAdded => Once(|rest| == 1 && f !in was && f in now)
      case _ => if f in was && f in now then OfSignature(was[f], now[f], kind, rest[1..]) else 0
  }

  ghost function OfTypes(was: map<string, TypeDef>, now: map<string, TypeDef>, kind: Kind, rest: seq<string>): nat {
    if rest == [] then 0
    else
      var t := rest[0];
      match kind
      case TypeRemoved => Once(|rest| == 1 && t in was && t !in now)
      case TypeAdded => Once(|rest| == 1 && t !in was && t in now)
      case _ => if t in was && t in now then OfTypeDef(was[t], now[t], kind, rest[1..]) else 0
  }

  /** A resource that is gone is reported as often as it was listed; one that is new is not. */
  ghost function OfInterface(was: Interface, now: Interface, kind: Kind, rest: seq<string>): nat {
    if kind == ResourceRemoved then
      (if |rest| == 1 && rest[0] !in now.resources then multiset(was.resources)[rest[0]] else 0)
    else OfFunctions(was.functions, now.functions, kind, rest) + OfTypes(was.types, now.types, kind, rest)
  }

  /** How often a change is reported of two packages. */
  ghost function Reported(was: Package, now: Package, c: Change): nat {
    if c.path == [] then 0
    else
      var i := c.path[0];
      match c.kind
      case InterfaceRemoved => Once(|c.path| == 1 && i in was.interfaces && i !in now.interfaces)
      case InterfaceAdded => Once(|c.path| == 1 && i !in was.interfaces && i in now.interfaces)
      case WorldRemoved => Once(|c.path| == 1 && i in was.worlds && i !in now.worlds)
      case WorldAdded => Once(|c.path| == 1 && i !in was.worlds && i in now.worlds)
      case _ => if i in was.interfaces && i in now.interfaces then OfInterface(was.interfaces[i], now.interfaces[i], c.kind, c.path[1..]) else 0
  }

  // ---------------------------------------------------------------------------
  // Counting
  // ---------------------------------------------------------------------------

  predicate Under(path: seq<string>, c: Change) {
    |path| <= |c.path| && c.path[..|path|] == path
  }

  /** A change right below the path. */
  predicate Below(path: seq<string>, c: Change) {
    |c.path| == |path| + 1 && Under(path, c)
  }

  lemma EachCount(names: set<string>, kind: Kind, path: seq<string>, c: Change)
    ensures Each(names, kind, path)[c] == Once(c.kind == kind && Below(path, c) && c.path[|path|] in names)
  {
    var all := set n | n in names :: Change(kind, path + [n]);
    assert c in all <==> exists n :: n in names && c == Change(kind, path + [n]);
    forall n { AtPath(kind, path, n, c); }
  }

  lemma {:induction false} AbsentCount(names: seq<string>, n: nat, other: seq<string>, kind: Kind, path: seq<string>, c: Change)
    requires n <= |names|
    ensures Absent(names, n, other, kind, path)[c] ==
            if c.kind == kind && Below(path, c) && c.path[|path|] !in other then multiset(names[..n])[c.path[|path|]] else 0
  {
    hide Absent, Below;
    AbsentGrows(names, 0, other, kind, path);
    if n > 0 {
      var last := names[n - 1];
      AbsentCount(names, n - 1, other, kind, path, c);
      AbsentGrows(names, n - 1, other, kind, path);
      assert names[..n] == names[..n - 1] + [last];
      assert multiset(names[..n]) == multiset(names[..n - 1]) + multiset{last};
      AtPath(kind, path, last, c);
    }
    BelowIsLonger(path, c);
  }

  lemma BelowIsLonger(path: seq<string>, c: Change)
    ensures Below(path, c) ==> |path| < |c.path|
  {
  }

  lemma AtPath(kind: Kind, path: seq<string>, n: string, c: Change)
    ensures c == Change(kind, path + [n]) <==> c.kind == kind && Below(path, c) && c.path[|path|] == n
  {
    if c.kind == kind && Below(path, c) && c.path[|path|] == n {
      assert c.path == path + [n];
    }
  }

  lemma {:induction false} ParametersCount(was: seq<Field>, now: seq<Field>, n: nat, path: seq<string>, c: Change)
    requires n <= |was| == |now|
    ensures ParameterChanges(was, now, n, path)[c] ==
            if c.kind == ParameterTypeChanged && Below(path, c) then Retyped(was, now, n, c.path[|path|]) else 0
  {
    if n > 0 {
      ParametersCount(was, now, n - 1, path, c);
      AtPath(ParameterTypeChanged, path, was[n - 1].name, c);
      if Below(path, c) {
        RetypedGrows(was, now, n, c.path[|path|]);
      }
    }
  }

  lemma RetypedGrows(was: seq<Field>, now: seq<Field>, n: nat, x: string)
    requires 0 < n <= |was| == |now|
    ensures Retyped(was, now, n, x) ==
            Retyped(was, now, n - 1, x) + Once(was[n - 1].name == x && was[n - 1].typ != now[n - 1].typ)
  {
    var before := set k | 0 <= k < n - 1 && was[k].name == x && was[k].typ != now[k].typ;
    var after := set k | 0 <= k < n && was[k].name == x && was[k].typ != now[k].typ;
    if was[n - 1].name == x && was[n - 1].typ != now[n - 1].typ {
      assert after == before + {n - 1};
    } else {
      assert after == before;
    }
  }

  lemma HereCount(kind: Kind, path: seq<string>, c: Change)
    ensures multiset{Change(kind, path)}[c] == Once(c.kind == kind && Under(path, c) && c.path[|path|..] == [])
  {
    if c.kind == kind && Under(path, c) && c.path[|path|..] == [] {
      assert c.path == path;
    }
  }

  lemma SignatureCount(was: Function, now: Function, path: seq<string>, c: Change)
    ensures SignatureChanges(was, now, path)[c] == if Under(path, c) then OfSignature(was, now, c.kind, c.path[|path|..]) else 0
  {
    hide ParameterChanges, Retyped;
    HereCount(ParameterCountChanged, path, c);
    HereCount(ReturnTypeChanged, path, c);
    if |was.params| == |now.params| {
      ParametersCount(was.params, now.params, |was.params|, path, c);
    }
  }

  /** Parts that report only below their own names add up to the one whose name the change is under. */
  lemma {:induction false} GatherCount(parts: map<string, multiset<Change>>, path: seq<string>, c: Change)
    requires forall k :: k in parts && !Under(path + [k], c) ==> parts[k][c] == 0
    ensures Gather(parts)[c] ==
            if |path| < |c.path| && Under(path, c) && c.path[|path|] in parts then parts[c.path[|path|]][c] else 0
    decreases |parts|
  {
    if parts != map[] {
      var p :| p in parts && Gather(parts) == parts[p] + Gather(parts - {p});
      GatherCount(parts - {p}, path, c);
      UnderName(path, p, c);
    }
  }

  lemma UnderName(path: seq<string>, n: string, c: Change)
    ensures Under(path + [n], c) <==> |path| < |c.path| && Under(path, c) && c.path[|path|] == n
    ensures Under(path + [n], c) ==> c.path[|path|..][1..] == c.path[|path + [n]|..] && c.path[|path|..][0] == n
  {
    if |path| < |c.path| {
      assert c.path[..|path| + 1] == c.path[..|path|] + [c.path[|path|]];
    }
  }

  lemma FunctionsCount(was: map<string, Function>, now: map<string, Function>, path: seq<string>, c: Change)
    ensures FunctionChanges(was, now, path)[c] == if Under(path, c) then OfFunctions(was, now, c.kind, c.path[|path|..]) else 0
  {
    hide Each, Gather, SignatureChanges, OfSignature;
    var shared := SharedSignatures(was, now, path);
    EachCount(was.Keys - now.Keys, FunctionRemoved, path, c);
    EachCount(now.Keys - was.Keys, FunctionAdded, path, c);
    forall f | f in shared
      ensures shared[f][c] == if Under(path + [f], c) then OfSignature(was[f], now[f], c.kind, c.path[|path + [f]|..]) else 0
    {
      SignatureCount(was[f], now[f], path + [f], c);
    }
    GatherCount(shared, path, c);
    if |path| < |c.path| && Under(path, c) {
      UnderName(path, c.path[|path|], c);
    }
    SignatureKinds();
  }

  lemma SignatureKinds()
    ensures forall was, now, rest ::
              OfSignature(was, now, FunctionRemoved, rest) == 0 && OfSignature(was, now, FunctionAdded, rest) == 0
  {
  }

  // ---------------------------------------------------------------------------
  // Types
  // ---------------------------------------------------------------------------

  lemma FieldSnoc(front: seq<Field>, last: Field, x: string)
    ensures HasField(front + [last], x) <==> HasField(front, x) || last.name == x
    ensures last.name == x ==> FieldIs(front + [last], x, last.typ)
    ensures last.name != x ==> forall t :: FieldIs(front, x, t) ==> FieldIs(front + [last], x, t)
  {
    var all := front + [last];
    assert all[|front|] == last && forall k :: 0 <= k < |front| ==> all[k] == front[k];
  }

  lemma {:induction false} FieldMapMeans(fields: seq<Field>, x: string)
    ensures x in FieldMap(fields) <==> HasField(fields, x)
    ensures x in FieldMap(fields) ==> FieldIs(fields, x, FieldMap(fields)[x])
  {
    hide HasField, FieldIs;
    if fields == [] {
      NoFields(x);
    } else {
      var front, last := fields[..|fields| - 1], fields[|fields| - 1];
      assert fields == front + [last];
      FieldMapMeans(front, x);
      FieldSnoc(front, last, x);
    }
  }

  lemma NoFields(x: string)
    ensures !HasField([], x)
  {
  }

  lemma OneFieldType(fields: seq<Field>, x: string, t: ParsedType, u: ParsedType)
    requires FieldIs(fields, x, t) && FieldIs(fields, x, u)
    ensures t == u && HasField(fields, x)
  {
    var k :| 0 <= k < |fields| && fields[k] == Field(x, t) && forall j :: k < j < |fields| ==> fields[j].name != x;
    var l :| 0 <= l < |fields| && fields[l] == Field(x, u) && forall j :: l < j < |fields| ==> fields[j].name != x;
    assert fields[k].name == x && fields[l].name == x;
    assert k == l;
  }

  lemma FieldsDiffer(was: seq<Field>, now: seq<Field>, x: string)
    ensures x in Differing(FieldMap(was), FieldMap(now)) <==> exists t, u :: t != u && FieldIs(was, x, t) && FieldIs(now, x, u)
  {
    hide FieldMap, FieldIs, HasField;
    FieldMapMeans(was, x);
    FieldMapMeans(now, x);
    if t, u :| t != u && FieldIs(was, x, t) && FieldIs(now, x, u) {
      OneFieldType(was, x, t, t);
      OneFieldType(now, x, u, u);
      OneFieldType(was, x, t, FieldMap(was)[x]);
      OneFieldType(now, x, u, FieldMap(now)[x]);
    }
  }

  lemma CaseSnoc(front: seq<Case>, last: Case, x: string)
    ensures HasCase(front + [last], x) <==> HasCase(front, x) || last.name == x
    ensures last.name == x ==> CaseIs(front + [last], x, last.typ)
    ensures last.name != x ==> forall t :: CaseIs(front, x, t) ==> CaseIs(front + [last], x, t)
  {
    var all := front + [last];
    assert all[|front|] == last && forall k :: 0 <= k < |front| ==> all[k] == front[k];
  }

  lemma {:induction false} CaseMapMeans(cases: seq<Case>, x: string)
    ensures x in CaseMap(cases) <==> HasCase(cases, x)
    ensures x in CaseMap(cases) ==> CaseIs(cases, x, CaseMap(cases)[x])
  {
    hide HasCase, CaseIs;
    if cases == [] {
      NoCases(x);
    } else {
      var front, last := cases[..|cases| - 1], cases[|cases| - 1];
      assert cases == front + [last];
      CaseMapMeans(front, x);
      CaseSnoc(front, last, x);
    }
  }

  lemma NoCases(x: string)
    ensures !HasCase([], x)
  {
  }

  lemma OneCaseType(cases: seq<Case>, x: string, t: Option<ParsedType>, u: Option<ParsedType>)
    requires CaseIs(cases, x, t) && CaseIs(cases, x, u)
    ensures t == u && HasCase(cases, x)
  {
    var k :| 0 <= k < |cases| && cases[k] == Case(x, t) && forall j :: k < j < |cases| ==> cases[j].name != x;
    var l :| 0 <= l < |cases| && cases[l] == Case(x, u) && forall j :: l < j < |cases| ==> cases[j].name != x;
    assert cases[k].name == x && cases[l].name == x;
    assert k == l;
  }

  lemma CasesDiffer(was: seq<Case>, now: seq<Case>, x: string)
    ensures x in Differing(CaseMap(was), CaseMap(now)) <==> exists t, u :: t != u && CaseIs(was, x, t) && CaseIs(now, x, u)
  {
    hide CaseMap, CaseIs, HasCase;
    CaseMapMeans(was, x);
    CaseMapMeans(now, x);
    if t, u :| t != u && CaseIs(was, x, t) && CaseIs(now, x, u) {
      OneCaseType(was, x, t, t);
      OneCaseType(now, x, u, u);
      OneCaseType(was, x, t, CaseMap(was)[x]);
      OneCaseType(now, x, u, CaseMap(now)[x]);
    }
  }

  lemma RecordCount(was: seq<Field>, now: seq<Field>, path: seq<string>, c: Change)
    ensures RecordChanges(FieldMap(was), FieldMap(now), path)[c] ==
            if Under(path, c) then OfTypeDef(Record(was), Record(now), c.kind, c.path[|path|..]) else 0
  {
    hide Each, FieldMap, Differing, FieldIs, HasField;
    EachCount(FieldMap(was).Keys - FieldMap(now).Keys, FieldRemoved, path, c);
    EachCount(FieldMap(now).Keys - FieldMap(was).Keys, FieldAdded, path, c);
    EachCount(Differing(FieldMap(was), FieldMap(now)), FieldTypeChanged, path, c);
    if Below(path, c) {
      var x := c.path[|path|];
      FieldMapMeans(was, x);
      FieldMapMeans(now, x);
      FieldsDiffer(was, now, x);
    }
  }

  lemma VariantCount(was: seq<Case>, now: seq<Case>, path: seq<string>, c: Change)
    ensures VariantChanges(CaseMap(was), CaseMap(now), path)[c] ==
            if Under(path, c) then OfTypeDef(Variant(was), Variant(now), c.kind, c.path[|path|..]) else 0
  {
    hide Each, CaseMap, Differing, CaseIs, HasCase;
    EachCount(CaseMap(was).Keys - CaseMap(now).Keys, CaseRemoved, path, c);
    EachCount(CaseMap(now).Keys - CaseMap(was).Keys, CaseAdded, path, c);
    EachCount(Differing(CaseMap(was), CaseMap(now)), CaseTypeChanged, path, c);
    if Below(path, c) {
      var x := c.path[|path|];
      CaseMapMeans(was, x);
      CaseMapMeans(now, x);
      CasesDiffer(was, now, x);
    }
  }

  lemma OfEnums(was: seq<string>, now: seq<string>, kind: Kind, rest: seq<string>)
    ensures OfTypeDef(Enum(was), Enum(now), kind, rest) ==
            (if kind == EnumCaseRemoved && |rest| == 1 && rest[0] !in now then multiset(was)[rest[0]] else 0)
            + (if kind == EnumCaseAdded && |rest| == 1 && rest[0] !in was then multiset(now)[rest[0]] else 0)
  {
  }

  lemma BelowIsOne(path: seq<string>, c: Change)
    ensures Below(path, c) <==> Under(path, c) && |c.path[|path|..]| == 1
    ensures Below(path, c) ==> c.path[|path|..][0] == c.path[|path|]
  {
  }

  lemma EnumCount(was: seq<string>, now: seq<string>, path: seq<string>, c: Change)
    ensures (Absent(was, |was|, now, EnumCaseRemoved, path) + Absent(now, |now|, was, EnumCaseAdded, path))[c] ==
            if Under(path, c) then OfTypeDef(Enum(was), Enum(now), c.kind, c.path[|path|..]) else 0
  {
    hide Absent, Below, OfTypeDef;
    if Under(path, c) {
      OfEnums(was, now, c.kind, c.path[|path|..]);
    }
    var gone, came := Absent(was, |was|, now, EnumCaseRemoved, path), Absent(now, |now|, was, EnumCaseAdded, path);
    AbsentCount(was, |was|, now, EnumCaseRemoved, path, c);
    AbsentCount(now, |now|, was, EnumCaseAdded, path, c);
    assert was[..|was|] == was && now[..|now|] == now;
    assert (gone + came)[c] == gone[c] + came[c];
    BelowIsOne(path, c);
  }

  lemma TypeDefCount(was: TypeDef, now: TypeDef, path: seq<string>, c: Change)
    ensures TypeDefChanges(was, now, path)[c] == if Under(path, c) then OfTypeDef(was, now, c.kind, c.path[|path|..]) else 0
  {
    hide RecordChanges, VariantChanges, Absent, FieldMap, CaseMap;
    if was.Record? && now.Record? {
      hide OfTypeDef;
      RecordCount(was.fields, now.fields, path, c);
    } else if was.Variant? && now.Variant? {
      hide OfTypeDef;
      VariantCount(was.cases, now.cases, path, c);
    } else if was.Enum? && now.Enum? {
      hide OfTypeDef;
      EnumCount(was.names, now.names, path, c);
    } else {
      HereCount(TypeKindChanged, path, c);
    }
  }

  lemma TypeDefKinds()
    ensures forall was, now, rest :: OfTypeDef(was, now, TypeRemoved, rest) == 0 && OfTypeDef(was, now, TypeAdded, rest) == 0
  {
  }

  lemma TypesCount(was: map<string, TypeDef>, now: map<string, TypeDef>, path: seq<string>, c: Change)
    ensures TypeChanges(was, now, path)[c] == if Under(path, c) then OfTypes(was, now, c.kind, c.path[|path|..]) else 0
  {
    hide Each, Gather, TypeDefChanges, OfTypeDef;
    var shared := SharedTypes(was, now, path);
    EachCount(was.Keys - now.Keys, TypeRemoved, path, c);
    EachCount(now.Keys - was.Keys, TypeAdded, path, c);
    forall t | t in shared
      ensures shared[t][c] == if Under(path + [t], c) then OfTypeDef(was[t], now[t], c.kind, c.path[|path + [t]|..]) else 0
    {
      TypeDefCount(was[t], now[t], path + [t], c);
    }
    GatherCount(shared, path, c);
    if |path| < |c.path| && Under(path, c) {
      UnderName(path, c.path[|path|], c);
    }
    TypeDefKinds();
  }

  // ---------------------------------------------------------------------------
  // Packages
  // ---------------------------------------------------------------------------

  lemma ResourcesAreNothingElse(was: Interface, now: Interface, rest: seq<string>)
    ensures OfFunctions(was.functions, now.functions, ResourceRemoved, rest) == 0
    ensures OfTypes(was.types, now.types, ResourceRemoved, rest) == 0
  {
  }

  lemma InterfaceCount(was: Interface, now: Interface, path: seq<string>, c: Change)
    ensures InterfaceChanges(was, now, path)[c] == if Under(path, c) then OfInterface(was, now, c.kind, c.path[|path|..]) else 0
  {
    hide FunctionChanges, TypeChanges, Absent, OfFunctions, OfTypes;
    FunctionsCount(was.functions, now.functions, path, c);
    AbsentCount(was.resources, |was.resources|, now.resources, ResourceRemoved, path, c);
    assert was.resources[..|was.resources|] == was.resources;
    TypesCount(was.types, now.types, path, c);
    if Under(path, c) {
      ResourcesAreNothingElse(was, now, c.path[|path|..]);
    }
  }

  lemma PackageKinds()
    ensures forall was, now, rest ::
              && OfInterface(was, now, InterfaceRemoved, rest) == 0 && OfInterface(was, now, InterfaceAdded, rest) == 0
              && OfInterface(was, now, WorldRemoved, rest) == 0 && OfInterface(was, now, WorldAdded, rest) == 0
  {
  }

  /** The report holds every change exactly as often as the two packages give cause for it, and no other. */
  lemma ReportIsExact(was: Package, now: Package, c: Change)
    ensures Changes(was, now)[c] == Reported(was, now, c)
  {
    hide Each, Gather, InterfaceChanges, OfInterface;
    var shared := SharedInterfaces(was.interfaces, now.interfaces);
    EachCount(was.interfaces.Keys - now.interfaces.Keys, InterfaceRemoved, [], c);
    EachCount(now.interfaces.Keys - was.interfaces.Keys, InterfaceAdded, [], c);
    EachCount(was.worlds - now.worlds, WorldRemoved, [], c);
    EachCount(now.worlds - was.worlds, WorldAdded, [], c);
    forall i | i in shared
      ensures shared[i][c] == if Under([i], c) then OfInterface(was.interfaces[i], now.interfaces[i], c.kind, c.path[1..]) else 0
    {
      InterfaceCount(was.interfaces[i], now.interfaces[i], [i], c);
    }
    assert forall i: string :: [] + [i] == [i];
    GatherCount(shared, [], c);
    if c.path != [] {
      UnderName([], c.path[0], c);
    }
    PackageKinds();
  }
}
