/** Clients of an interface, and which of them survive an upgrade that the checker lets through. */
module CompatibilityClients {
  import opened Wrappers
  import opened Compatibility
  import opened CompatibilityLaws

  /** An expression over one interface. A `Value` is one that came from elsewhere, of any type. */
  datatype Expr =
    | Value(typ: ParsedType)
    | MakeRecord(typeName: string, fields: seq<(string, Expr)>)
    | MakeVariant(typeName: string, tag: string, payload: Option<Expr>)
    | MakeEnum(typeName: string, tag: string)
    | MakeFlags(typeName: string, names: seq<string>)
    | AsAlias(typeName: string, inner: Expr)
    | Call(func: string, args: seq<Expr>)

  datatype Typing = IllTyped | Void | Of(typ: ParsedType)

  /** Somewhere in the expression a flags value is made or an alias looked through. */
  predicate UsesFlagsOrAlias(e: Expr)
    decreases e
  {
    match e
    case Value(_) => false
    case MakeRecord(_, fields) => exists k :: 0 <= k < |fields| && UsesFlagsOrAlias(fields[k].1)
    case MakeVariant(_, _, payload) => payload.Some? && UsesFlagsOrAlias(payload.value)
    case MakeEnum(_, _) => false
    case MakeFlags(_, _) => true
    case AsAlias(_, _) => true
    case Call(_, args) => exists k :: 0 <= k < |args| && UsesFlagsOrAlias(args[k])
  }

  predicate NamesExactly(fields: seq<(string, Expr)>, names: set<string>) {
    && (forall j, k :: 0 <= j < k < |fields| ==> fields[j].0 != fields[k].0)
    && (set k | 0 <= k < |fields| :: fields[k].0) == names
  }

  function Check(i: Interface, e: Expr): Typing
    decreases e
  {
    match e
    case Value(t) => Of(t)
    case MakeRecord(t, fields) =>
      if t in i.types && i.types[t].Record? && NamesExactly(fields, FieldMap(i.types[t].fields).Keys)
         && (forall k :: 0 <= k < |fields| ==>
               fields[k].0 in FieldMap(i.types[t].fields) && Check(i, fields[k].1) == Of(FieldMap(i.types[t].fields)[fields[k].0]))
      then Of(Named(t)) else IllTyped
    case MakeVariant(t, tag, payload) =>
      if t in i.types && i.types[t].Variant? && tag in CaseMap(i.types[t].cases)
         && match CaseMap(i.types[t].cases)[tag]
            case None => payload.None?
            case Some(want) => payload.Some? && Check(i, payload.value) == Of(want)
      then Of(Named(t)) else IllTyped
    case MakeEnum(t, tag) =>
      if t in i.types && i.types[t].Enum? && tag in i.types[t].names then Of(Named(t)) else IllTyped
    case MakeFlags(t, names) =>
      if t in i.types && i.types[t].Flags? && (forall n :: n in names ==> n in i.types[t].names) then Of(Named(t)) else IllTyped
    case AsAlias(t, inner) =>
      if t in i.types && i.types[t].Alias? && Check(i, inner) == Of(i.types[t].target) then Of(Named(t)) else IllTyped
    case Call(f, args) =>
      if f in i.functions && |args| == |i.functions[f].params|
         && (forall k :: 0 <= k < |args| ==> Check(i, args[k]) == Of(i.functions[f].params[k].typ))
      then (match i.functions[f].result case None => Void case Some(t) => Of(t)) else IllTyped
  }

  /** What the checker never looks at: the names of a flags type and the target of an alias. */
  predicate FlagsAndAliasesKept(was: map<string, TypeDef>, now: map<string, TypeDef>) {
    forall t :: t in was && t in now ==>
      && (was[t].Flags? && now[t].Flags? ==> forall n :: n in was[t].names ==> n in now[t].names)
      && (was[t].Alias? && now[t].Alias? ==> was[t].target == now[t].target)
  }

  /** Every expression that types against the old interface types the same against the new one. */
  ghost predicate KeepsClients(was: Interface, now: Interface) {
    forall e :: Check(was, e) != IllTyped ==> Check(now, e) == Check(was, e)
  }

  lemma RecordKept(was: Interface, now: Interface, e: Expr)
    requires ExtendsTypes(was.types, now.types) && e.MakeRecord? && Check(was, e) != IllTyped
    requires forall k :: 0 <= k < |e.fields| ==> Check(now, e.fields[k].1) == Check(was, e.fields[k].1)
    ensures Check(now, e) == Check(was, e)
  {
    hide FieldMap, CaseMap, NamesExactly;
    assert ExtendsTypeDef(was.types[e.typeName], now.types[e.typeName]);
  }

  lemma VariantKept(was: Interface, now: Interface, e: Expr)
    requires ExtendsTypes(was.types, now.types) && e.MakeVariant? && Check(was, e) != IllTyped
    requires e.payload.Some? && Check(was, e.payload.value) != IllTyped ==> Check(now, e.payload.value) == Check(was, e.payload.value)
    ensures Check(now, e) == Check(was, e)
  {
    hide FieldMap, CaseMap;
    assert ExtendsTypeDef(was.types[e.typeName], now.types[e.typeName]);
  }

  lemma CallKept(was: Interface, now: Interface, e: Expr)
    requires ExtendsFunctions(was.functions, now.functions) && e.Call? && Check(was, e) != IllTyped
    requires forall k :: 0 <= k < |e.args| ==> Check(now, e.args[k]) == Check(was, e.args[k])
    ensures Check(now, e) == Check(was, e)
  {
    assert ExtendsSignature(was.functions[e.func], now.functions[e.func]);
  }

  /** An upgrade that extends the interface keeps every client that makes no flags and looks through no
      alias, and every client at all if those are kept. */
  lemma {:induction false} ExprKept(was: Interface, now: Interface, e: Expr)
    requires ExtendsInterface(was, now, false) && Check(was, e) != IllTyped
    requires FlagsAndAliasesKept(was.types, now.types) || !UsesFlagsOrAlias(e)
    ensures Check(now, e) == Check(was, e)
    decreases e
  {
    match e
    case Value(_) =>
    case MakeRecord(t, fields) =>
      forall k | 0 <= k < |fields|
        ensures Check(now, fields[k].1) == Check(was, fields[k].1)
      {
        ExprKept(was, now, fields[k].1);
      }
      RecordKept(was, now, e);
    case MakeVariant(t, tag, payload) =>
      if payload.Some? && Check(was, payload.value) != IllTyped {
        ExprKept(was, now, payload.value);
      }
      VariantKept(was, now, e);
    case MakeEnum(t, tag) => assert ExtendsTypeDef(was.types[t], now.types[t]);
    case MakeFlags(t, names) => assert ExtendsTypeDef(was.types[t], now.types[t]);
    case AsAlias(t, inner) =>
      assert ExtendsTypeDef(was.types[t], now.types[t]);
      ExprKept(was, now, inner);
    case Call(f, args) =>
      forall k | 0 <= k < |args|
        ensures Check(now, args[k]) == Check(was, args[k])
      {
        ExprKept(was, now, args[k]);
      }
      CallKept(was, now, e);
  }

  /** For an interface the checker lets through, all clients survive exactly when flags names are kept and
      alias targets are the same. */
  lemma ClientsKeptExactly(was: Interface, now: Interface)
    requires ExtendsInterface(was, now, false)
    ensures KeepsClients(was, now) <==> FlagsAndAliasesKept(was.types, now.types)
  {
    hide ExtendsTypeDef, FieldMap, CaseMap;
    if FlagsAndAliasesKept(was.types, now.types) {
      forall e | Check(was, e) != IllTyped
        ensures Check(now, e) == Check(was, e)
      {
        ExprKept(was, now, e);
      }
    } else {
      var t :| t in was.types && t in now.types &&
               !((was.types[t].Flags? && now.types[t].Flags? ==> forall n :: n in was.types[t].names ==> n in now.types[t].names)
                 && (was.types[t].Alias? && now.types[t].Alias? ==> was.types[t].target == now.types[t].target));
      var broken :=
        if was.types[t].Flags? then MakeFlags(t, was.types[t].names) else AsAlias(t, Value(was.types[t].target));
      assert Check(was, broken) == Of(Named(t));
      assert Check(now, broken) == IllTyped;
    }
  }

  /** After an upgrade that is not Breaking every interface is still there, its clients that make no flags
      and look through no alias are kept, and all of them exactly when flags and aliases are. */
  lemma UpgradesKeepClients(was: Package, now: Package, i: string)
    requires VerdictFor(was, now) != Incompatible && i in was.interfaces
    ensures i in now.interfaces
    ensures forall e :: Check(was.interfaces[i], e) != IllTyped && !UsesFlagsOrAlias(e) ==>
              Check(now.interfaces[i], e) == Check(was.interfaces[i], e)
    ensures KeepsClients(was.interfaces[i], now.interfaces[i]) <==>
            FlagsAndAliasesKept(was.interfaces[i].types, now.interfaces[i].types)
  {
    hide VerdictFor, ExtendsFunctions, ExtendsTypes, KeepsClients, FlagsAndAliasesKept, Check, UsesFlagsOrAlias;
    VerdictMeans(was, now);
    StrictIsMore(was, now);
    var a, b := was.interfaces[i], now.interfaces[i];
    forall e | Check(a, e) != IllTyped && !UsesFlagsOrAlias(e)
      ensures Check(b, e) == Check(a, e)
    {
      ExprKept(a, b, e);
    }
    ClientsKeptExactly(a, b);
  }

  function OneFlagsType(names: seq<string>): Interface {
    Interface(map[], map["f" := Flags(names)], [])
  }

  lemma FlagsAreNotCompared(before: seq<string>, after: seq<string>)
    ensures VerdictFor(Package(map["i" := OneFlagsType(before)], {}), Package(map["i" := OneFlagsType(after)], {})) == Compatible
  {
    hide VerdictFor, Changes;
    var was, now := Package(map["i" := OneFlagsType(before)], {}), Package(map["i" := OneFlagsType(after)], {});
    VerdictMeans(was, now);
    assert ExtendsTypeDef(Flags(before), Flags(after)) && ExtendsTypeDef(Flags(after), Flags(before));
    assert ExtendsInterface(OneFlagsType(before), OneFlagsType(after), true);
    assert ExtendsInterface(OneFlagsType(after), OneFlagsType(before), false);
  }

  /** Dropping a flag is not reported as a change at all, and breaks a client. */
  lemma DroppedFlagIsMissed()
    ensures VerdictFor(Package(map["i" := OneFlagsType(["x"])], {}), Package(map["i" := OneFlagsType([])], {})) == Compatible
    ensures Check(OneFlagsType(["x"]), MakeFlags("f", ["x"])) == Of(Named("f"))
    ensures Check(OneFlagsType([]), MakeFlags("f", ["x"])) == IllTyped
  {
    hide VerdictFor;
    FlagsAreNotCompared(["x"], []);
    var names := ["x"];
    assert names[0] == "x" && names[0] in names;
  }
}
