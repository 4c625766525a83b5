/** `${NAME}` interpolation (`torvyn-config/src/env.rs`), with the environment as a map. */
module Env {
  import opened Wrappers

  datatype Token = Literal(c: char) | Reference(name: string)
  {
    function Text(): string {
      match this
      case Literal(c) => [c]
      case Reference(name) => "${" + name + "}"
    }
  }

  datatype Interpolated = Expanded(text: string) | NotFound(name: string)
  {
    function After(prefix: string): Interpolated {
      if Expanded? then Expanded(prefix + text) else this
    }
  }

  // ---------------------------------------------------------------------------
  // The split
  // ---------------------------------------------------------------------------

  /** How many characters come before the first closing brace. */
  function Close(s: string): (k: Option<nat>)
    ensures k.Some? ==> k.value < |s| && s[k.value] == '}' && '}' !in s[..k.value]
    ensures k.None? <==> '}' !in s
  {
    if s == [] then None
    else if s[0] == '}' then Some(0)
    else match Close(s[1..])
      case None => None
      case Some(k) => assert s[..k + 1] == [s[0]] + s[1..][..k]; Some(k + 1)
  }

  predicate Opens(s: string) {
    |s| >= 2 && s[0] == '$' && s[1] == '{'
  }

  /** The length of the name, when the text starts with a closed reference to a name that is not empty. */
  function ReferenceAt(s: string): (k: Option<nat>)
    ensures k.Some? ==> 0 < k.value && k.value + 3 <= |s|
  {
    if Opens(s) && Close(s[2..]).Some? && Close(s[2..]).value > 0 then Some(Close(s[2..]).value) else None
  }

  lemma ReferenceAtMeans(s: string)
    requires ReferenceAt(s).Some?
    ensures var k := ReferenceAt(s).value;
            && '}' !in s[2..2 + k] && s == Reference(s[2..2 + k]).Text() + s[k + 3..]
  {
    var k := ReferenceAt(s).value;
    CutThrice(s, k);
    assert s[2..][..k] == s[2..2 + k] && s[2..][k] == s[2 + k];
  }

  /** A text starts with a reference to a name of `k` characters exactly when it is that reference's text with
      anything behind it, the name not empty and without a closing brace. */
  lemma ReferenceExactly(s: string, k: nat)
    ensures ReferenceAt(s) == Some(k) <==>
            k > 0 && exists name, rest :: |name| == k && '}' !in name && s == "${" + name + "}" + rest
  {
    hide ReferenceAt;
    if ReferenceAt(s) == Some(k) {
      ReferenceAtMeans(s);
      var name, rest := s[2..2 + k], s[k + 3..];
      assert |name| == k && s == "${" + name + "}" + rest;
    }
    if name, rest :| k > 0 && |name| == k && '}' !in name && s == "${" + name + "}" + rest {
      StartsWithReference(name, rest);
    }
  }

  lemma StartsWithReference(name: string, rest: string)
    requires name != [] && '}' !in name
    ensures ReferenceAt("${" + name + "}" + rest) == Some(|name|)
  {
    var s := "${" + name + "}" + rest;
    assert s[2..] == name + "}" + rest && s[2..][..|name|] == name;
    FirstClose(s[2..], |name|);
  }

  lemma CutThrice(s: string, k: nat)
    requires k + 3 <= |s|
    ensures s == s[..2] + s[2..2 + k] + [s[2 + k]] + s[k + 3..]
  {
  }

  /** Left to right: a reference where there is one, else one character. */
  function Tokens(s: string): seq<Token>
    decreases |s|
  {
    if s == [] then []
    else match ReferenceAt(s)
      case Some(k) => [Reference(s[2..2 + k])] + Tokens(s[k + 3..])
      case None => [Literal(s[0])] + Tokens(s[1..])
  }

  function Text(ts: seq<Token>): string {
    if ts == [] then "" else ts[0].Text() + Text(ts[1..])
  }

  function Expand(ts: seq<Token>, env: map<string, string>): Interpolated {
    if ts == [] then Expanded("")
    else match ts[0]
      case Literal(c) => Expand(ts[1..], env).After([c])
      case Reference(name) => if name in env then Expand(ts[1..], env).After(env[name]) else NotFound(name)
  }

  function Interpolate(s: string, env: map<string, string>): Interpolated {
    Expand(Tokens(s), env)
  }

  // ---------------------------------------------------------------------------
  // The scanner
  // ---------------------------------------------------------------------------

  /** Reads up to the closing brace, as the inner loop of the source does. */
  method ReadName(input: string, from: nat) returns (name: string, closed: bool, next: nat)
    requires from <= |input|
    ensures closed <==> Close(input[from..]).Some?
    ensures closed ==> name == input[from..][..Close(input[from..]).value] && next == from + |name| + 1 <= |input|
    ensures !closed ==> name == input[from..] && next == |input|
  {
    name, closed, next := "", false, from;
    while next < |input| && !closed
      invariant from <= next <= |input|
      invariant !closed ==> name == input[from..next] && '}' !in name
      invariant closed ==> next > from && name == input[from..next - 1] && '}' !in name && input[next - 1] == '}'
      decreases |input| - next, !closed
    {
      var c := input[next];
      next := next + 1;
      if c == '}' {
        closed := true;
      } else {
        name := name + [c];
      }
    }
    if closed {
      FirstClose(input[from..], |name|);
    } else {
      assert name == input[from..];
    }
  }

  lemma {:induction false} FirstClose(s: string, k: nat)
    requires k < |s| && s[k] == '}' && '}' !in s[..k]
    ensures Close(s) == Some(k)
  {
    if k > 0 {
      assert s[0] == s[..k][0];
      assert s[1..][..k - 1] == s[..k][1..];
      FirstClose(s[1..], k - 1);
    }
  }

  method InterpolateEnv(input: string, env: map<string, string>) returns (r: Interpolated)
    ensures r == Interpolate(input, env)
  {
    hide Interpolate, Interpolated.After, ReferenceAt;
    var result, i := "", 0;
    assert input[0..] == input;
    Joins("", Interpolate(input, env), "");
    while i < |input|
      invariant 0 <= i <= |input|
      invariant Interpolate(input, env) == Interpolate(input[i..], env).After(result)
      decreases |input| - i
    {
      var c := input[i];
      if c == '$' && i + 1 < |input| && input[i + 1] == '{' {
        var name, closed, next := ReadName(input, i + 2);
        if !closed {
          AtUnclosed(input, i, env, result);
          result := result + "${" + name;
        } else if name == "" {
          AtEmptyName(input, i, env, result);
          result := result + "${}";
        } else {
          AtReference(input, i, env, result, |name|);
          if name in env {
            result := result + env[name];
          } else {
            AfterNotFound(name, result);
            return NotFound(name);
          }
        }
        i := next;
      } else {
        AtCharacter(input, i, env, result);
        result := result + [c];
        i := i + 1;
      }
    }
    assert input[i..] == "";
    AtEnd(env, result);
    return Expanded(result);
  }

  lemma AfterNotFound(name: string, prefix: string)
    ensures NotFound(name).After(prefix) == NotFound(name)
  {
  }

  lemma AtEnd(env: map<string, string>, result: string)
    ensures Interpolate("", env).After(result) == Expanded(result)
  {
    assert result + "" == result;
  }

  lemma AtCharacter(input: string, i: nat, env: map<string, string>, result: string)
    requires i < |input| && !(input[i] == '$' && i + 1 < |input| && input[i + 1] == '{')
    ensures Interpolate(input[i..], env).After(result) == Interpolate(input[i + 1..], env).After(result + [input[i]])
  {
    hide Interpolate;
    OneCharacter(input[i..], env);
    assert input[i..][1..] == input[i + 1..];
    Joins(result, Interpolate(input[i + 1..], env), [input[i]]);
  }

  lemma AtUnclosed(input: string, i: nat, env: map<string, string>, result: string)
    requires i + 2 <= |input| && input[i] == '$' && input[i + 1] == '{' && Close(input[i + 2..]).None?
    ensures Interpolate(input[i..], env).After(result) == Interpolate(input[|input|..], env).After(result + "${" + input[i + 2..])
  {
    hide Interpolate;
    var rest := input[i..];
    assert rest[2..] == input[i + 2..];
    assert rest == "${" + input[i + 2..];
    Unclosed(rest, env);
    assert input[|input|..] == "";
    AtEnd(env, result + rest);
    assert result + "${" + input[i + 2..] == result + rest;
    Joins(result, Expanded(""), rest);
    assert result + rest + "" == result + rest;
  }

  lemma AtEmptyName(input: string, i: nat, env: map<string, string>, result: string)
    requires i + 2 <= |input| && input[i] == '$' && input[i + 1] == '{' && Close(input[i + 2..]) == Some(0)
    ensures i + 3 <= |input| && Interpolate(input[i..], env).After(result) == Interpolate(input[i + 3..], env).After(result + "${}")
  {
    hide Interpolate;
    EmptyName(input[i..], env);
    assert input[i..][3..] == input[i + 3..];
    Joins(result, Interpolate(input[i + 3..], env), "${}");
  }

  lemma AtReference(input: string, i: nat, env: map<string, string>, result: string, k: nat)
    requires i + 2 <= |input| && input[i] == '$' && input[i + 1] == '{' && Close(input[i + 2..]) == Some(k) && k > 0
    ensures i + k + 3 <= |input|
    ensures var name := input[i + 2..][..k];
            Interpolate(input[i..], env).After(result) ==
            if name in env then Interpolate(input[i + k + 3..], env).After(result + env[name]) else NotFound(name).After(result)
  {
    hide Interpolate;
    var rest := input[i..];
    assert rest[2..] == input[i + 2..] && rest[2..2 + k] == input[i + 2..][..k] && rest[k + 3..] == input[i + k + 3..];
    NamedReference(rest, env, k);
    var name := rest[2..2 + k];
    if name in env {
      Joins(result, Interpolate(input[i + k + 3..], env), env[name]);
    }
  }

  lemma Joins(a: string, r: Interpolated, b: string)
    ensures r.After(b).After(a) == r.After(a + b) && r.After("") == r
  {
    if r.Expanded? {
      assert a + (b + r.text) == a + b + r.text;
    }
  }

  lemma OneCharacter(s: string, env: map<string, string>)
    requires s != [] && ReferenceAt(s).None?
    ensures Interpolate(s, env) == Interpolate(s[1..], env).After([s[0]])
  {
    assert Tokens(s) == [Literal(s[0])] + Tokens(s[1..]);
  }

  lemma NamedReference(s: string, env: map<string, string>, k: nat)
    requires Opens(s) && Close(s[2..]) == Some(k) && k > 0
    ensures Interpolate(s, env) ==
            if s[2..2 + k] in env then Interpolate(s[k + 3..], env).After(env[s[2..2 + k]]) else NotFound(s[2..2 + k])
  {
    hide Close;
    var rest := Tokens(s[k + 3..]);
    assert Tokens(s) == [Reference(s[2..2 + k])] + rest;
    assert ([Reference(s[2..2 + k])] + rest)[1..] == rest;
  }

  lemma NotAReference(s: string)
    requires s != [] && (s[0] != '$' || (|s| >= 3 && s[2] == '}'))
    ensures ReferenceAt(s).None?
  {
    if |s| >= 3 && s[2] == '}' {
      FirstClose(s[2..], 0);
    }
  }

  lemma EmptyName(s: string, env: map<string, string>)
    requires |s| >= 3 && s[0] == '$' && s[1] == '{' && s[2] == '}'
    ensures Interpolate(s, env) == Interpolate(s[3..], env).After("${}")
  {
    hide Interpolate, ReferenceAt, Interpolated.After;
    var r := Interpolate(s[3..], env);
    NotAReference(s);
    NotAReference(s[1..]);
    NotAReference(s[2..]);
    OneCharacter(s, env);
    OneCharacter(s[1..], env);
    OneCharacter(s[2..], env);
    assert s[1..][1..] == s[2..] && s[2..][1..] == s[3..];
    assert [s[0]] == "$" && [s[1..][0]] == "{" && [s[2..][0]] == "}";
    Joins("{", r, "}");
    Joins("$", r, "{}");
    assert "{" + "}" == "{}" && "$" + "{}" == "${}";
  }

  lemma UnbracedHasNone(s: string)
    requires '}' !in s
    ensures ReferenceAt(s).None?
  {
    hide Close;
    if Opens(s) {
      assert '}' !in s[2..];
    }
  }

  lemma NothingExpands(env: map<string, string>)
    ensures Interpolate("", env) == Expanded("")
  {
  }

  lemma CharacterBefore(s: string)
    requires s != []
    ensures Expanded(s[1..]).After([s[0]]) == Expanded(s)
  {
    assert [s[0]] + s[1..] == s;
  }

  /** Text without a closing brace holds no reference. */
  lemma {:induction false} NoReference(s: string, env: map<string, string>)
    requires '}' !in s
    ensures Interpolate(s, env) == Expanded(s)
  {
    hide Interpolate, Interpolated.After, ReferenceAt;
    if s == [] {
      NothingExpands(env);
    } else {
      UnbracedHasNone(s);
      OneCharacter(s, env);
      NoReference(s[1..], env);
      CharacterBefore(s);
    }
  }

  lemma Unclosed(s: string, env: map<string, string>)
    requires |s| >= 2 && s[0] == '$' && s[1] == '{' && Close(s[2..]).None?
    ensures Interpolate(s, env) == Expanded("").After(s)
  {
    assert s == s[..2] + s[2..];
    NoReference(s, env);
  }

  // ---------------------------------------------------------------------------
  // What the split is
  // ---------------------------------------------------------------------------

  /** A reference's name is not empty and has no closing brace; a literal stands only where no reference
      starts. */
  ghost predicate Canonical(ts: seq<Token>) {
    forall i :: 0 <= i < |ts| ==> WellPlaced(ts[i], Text(ts[i..]))
  }

  predicate WellPlaced(t: Token, from: string) {
    match t
    case Literal(_) => ReferenceAt(from).None?
    case Reference(name) => name != "" && '}' !in name
  }

  lemma CanonicalTail(ts: seq<Token>)
    requires Canonical(ts) && ts != []
    ensures Canonical(ts[1..]) && WellPlaced(ts[0], Text(ts))
  {
    assert ts[0..] == ts;
    forall i | 0 <= i < |ts| - 1
      ensures WellPlaced(ts[1..][i], Text(ts[1..][i..]))
    {
      assert WellPlaced(ts[i + 1], Text(ts[i + 1..]));
      assert ts[1..][i..] == ts[i + 1..];
    }
  }

  lemma CanonicalCons(t: Token, ts: seq<Token>)
    requires Canonical(ts) && WellPlaced(t, Text([t] + ts))
    ensures Canonical([t] + ts)
  {
    var all := [t] + ts;
    forall i | 0 <= i < |all|
      ensures WellPlaced(all[i], Text(all[i..]))
    {
      if i == 0 {
        assert all[0..] == all;
      } else {
        assert WellPlaced(ts[i - 1], Text(ts[i - 1..]));
        assert all[i..] == ts[i - 1..];
      }
    }
  }

  /** The split loses nothing and is canonical. */
  lemma {:induction false} TokensAreLossless(s: string)
    ensures Text(Tokens(s)) == s && Canonical(Tokens(s))
    decreases |s|
  {
    hide Canonical, Text, Token.Text, ReferenceAt;
    if s == [] {
      NothingToSplit();
    } else {
      match ReferenceAt(s)
      case Some(k) =>
        TokensAreLossless(s[k + 3..]);
        ReferenceAtMeans(s);
        TextCons(Reference(s[2..2 + k]), Tokens(s[k + 3..]));
        CanonicalCons(Reference(s[2..2 + k]), Tokens(s[k + 3..]));
      case None =>
        TokensAreLossless(s[1..]);
        LiteralText(s[0]);
        TextCons(Literal(s[0]), Tokens(s[1..]));
        assert s == [s[0]] + s[1..];
        CanonicalCons(Literal(s[0]), Tokens(s[1..]));
    }
  }

  lemma NothingToSplit()
    ensures Tokens("") == [] && Text([]) == "" && Canonical([])
  {
  }

  lemma ReferenceTextStarts(name: string, rest: string)
    requires name != "" && '}' !in name
    ensures ReferenceAt(Reference(name).Text() + rest) == Some(|name|)
    ensures (Reference(name).Text() + rest)[2..2 + |name|] == name
    ensures (Reference(name).Text() + rest)[|name| + 3..] == rest
  {
    var s := Reference(name).Text() + rest;
    assert s[2..] == name + "}" + rest;
    assert s[2..][..|name|] == name;
    FirstClose(s[2..], |name|);
  }

  /** There is only one canonical split of a text. */
  lemma {:induction false} TokensAreUnique(ts: seq<Token>)
    requires Canonical(ts)
    ensures Tokens(Text(ts)) == ts
    decreases |ts|
  {
    if ts != [] {
      var rest := Text(ts[1..]);
      CanonicalTail(ts);
      hide Canonical;
      TokensAreUnique(ts[1..]);
      assert ts == [ts[0]] + ts[1..];
      match ts[0]
      case Reference(name) => ReferenceTextStarts(name, rest);
      case Literal(c) =>
        assert Text(ts) == [c] + rest;
        assert ([c] + rest)[1..] == rest;
    }
  }

  // ---------------------------------------------------------------------------
  // What interpolation does
  // ---------------------------------------------------------------------------

  /** It fails exactly when some closed, named reference is unset, and then names the first such. */
  lemma {:induction false} FailsExactlyOnUnset(ts: seq<Token>, env: map<string, string>)
    ensures Expand(ts, env).Expanded? <==> forall n :: Reference(n) in ts ==> n in env
    ensures forall n :: Expand(ts, env) == NotFound(n) <==>
              exists i :: 0 <= i < |ts| && ts[i] == Reference(n) && n !in env && FirstUnset(ts, env, i)
  {
    if ts != [] {
      FailsExactlyOnUnset(ts[1..], env);
      assert ts == [ts[0]] + ts[1..];
      var here := ts[0].Reference? && ts[0].name !in env;
      forall n
        ensures Expand(ts, env) == NotFound(n) <==>
                exists i :: 0 <= i < |ts| && ts[i] == Reference(n) && n !in env && FirstUnset(ts, env, i)
      {
        if here {
          assert FirstUnset(ts, env, 0);
        } else {
          if Expand(ts[1..], env) == NotFound(n) {
            var j :| 0 <= j < |ts[1..]| && ts[1..][j] == Reference(n) && n !in env && FirstUnset(ts[1..], env, j);
            FirstUnsetShifts(ts, env, j);
            assert ts[j + 1] == Reference(n);
          }
          forall i | 0 <= i < |ts| && ts[i] == Reference(n) && n !in env && FirstUnset(ts, env, i)
            ensures Expand(ts, env) == NotFound(n)
          {
            FirstUnsetShifts(ts, env, i - 1);
            assert ts[1..][i - 1] == Reference(n);
          }
        }
      }
    }
  }

  predicate FirstUnset(ts: seq<Token>, env: map<string, string>, i: nat) {
    i < |ts| && forall j :: 0 <= j < i && ts[j].Reference? ==> ts[j].name in env
  }

  lemma FirstUnsetShifts(ts: seq<Token>, env: map<string, string>, j: nat)
    requires j + 1 < |ts| && (ts[0].Reference? ==> ts[0].name in env)
    ensures FirstUnset(ts[1..], env, j) <==> FirstUnset(ts, env, j + 1)
  {
    if FirstUnset(ts[1..], env, j) {
      forall m | 0 <= m < j + 1 && ts[m].Reference?
        ensures ts[m].name in env
      {
        if m > 0 {
          assert ts[m] == ts[1..][m - 1];
        }
      }
    }
  }

  /** With every name mapped to its own reference text, interpolation is the identity. */
  lemma {:induction false} SelfReferenceIsIdentity(ts: seq<Token>, env: map<string, string>)
    requires forall n :: Reference(n) in ts ==> n in env && env[n] == Reference(n).Text()
    ensures Expand(ts, env) == Expanded(Text(ts))
  {
    hide Token.Text;
    if ts != [] {
      assert ts[0] in ts && forall t :: t in ts[1..] ==> t in ts;
      SelfReferenceIsIdentity(ts[1..], env);
      if ts[0].Literal? { LiteralText(ts[0].c); }
    }
  }

  lemma LiteralText(c: char)
    ensures Literal(c).Text() == [c]
  {
  }

  lemma InterpolateIdentity(s: string, env: map<string, string>)
    requires forall n :: Reference(n) in Tokens(s) ==> n in env && env[n] == Reference(n).Text()
    ensures Interpolate(s, env) == Expanded(s)
  {
    TokensAreLossless(s);
    SelfReferenceIsIdentity(Tokens(s), env);
  }

  function Join(x: Interpolated, y: Interpolated): Interpolated {
    if x.NotFound? then x else y.After(x.text)
  }

  lemma {:induction false} ExpandConcat(ts: seq<Token>, us: seq<Token>, env: map<string, string>)
    ensures Expand(ts + us, env) == Join(Expand(ts, env), Expand(us, env))
  {
    var y := Expand(us, env);
    if ts == [] {
      assert ts + us == us;
      Joins("", y, "");
    } else {
      ExpandConcat(ts[1..], us, env);
      assert (ts + us)[1..] == ts[1..] + us && (ts + us)[0] == ts[0];
      var x := Expand(ts[1..], env);
      match ts[0]
      case Literal(c) => JoinAfter(x, y, [c]);
      case Reference(n) => if n in env { JoinAfter(x, y, env[n]); }
    }
  }

  lemma JoinAfter(x: Interpolated, y: Interpolated, piece: string)
    ensures Join(x, y).After(piece) == Join(x.After(piece), y)
  {
    if x.Expanded? {
      Joins(piece, y, x.text);
    }
  }

  lemma {:induction false} TextConcat(ts: seq<Token>, us: seq<Token>)
    ensures Text(ts + us) == Text(ts) + Text(us)
  {
    hide Token.Text;
    if ts == [] {
      assert ts + us == us;
    } else {
      TextConcat(ts[1..], us);
      TextCons(ts[0], ts[1..] + us);
      TextCons(ts[0], ts[1..]);
      assert ts + us == [ts[0]] + (ts[1..] + us) && [ts[0]] + ts[1..] == ts;
      hide Text;
      var x, y, z := ts[0].Text(), Text(ts[1..]), Text(us);
      assert x + (y + z) == x + y + z;
    }
  }

  lemma TextCons(t: Token, ts: seq<Token>)
    ensures Text([t] + ts) == t.Text() + Text(ts)
  {
    assert ([t] + ts)[1..] == ts;
  }

  /** A reference that is closed within a text starts any longer one. */
  lemma ReferencePersists(s: string, more: string)
    requires ReferenceAt(s).Some?
    ensures ReferenceAt(s + more) == ReferenceAt(s)
  {
    var k := ReferenceAt(s).value;
    assert (s + more)[2..] == s[2..] + more;
    assert s[2..][k] == '}' && (s[2..] + more)[..k] == s[2..][..k];
    FirstClose((s + more)[2..], k);
  }

  lemma CanonicalSplits(ts: seq<Token>, k: nat)
    requires Canonical(ts) && k <= |ts|
    ensures Canonical(ts[..k]) && Canonical(ts[k..])
  {
    forall i | 0 <= i < k
      ensures WellPlaced(ts[..k][i], Text(ts[..k][i..]))
    {
      assert WellPlaced(ts[i], Text(ts[i..]));
      assert ts[i..] == ts[..k][i..] + ts[k..];
      TextConcat(ts[..k][i..], ts[k..]);
      if ReferenceAt(Text(ts[..k][i..])).Some? {
        ReferencePersists(Text(ts[..k][i..]), Text(ts[k..]));
      }
    }
    forall i | 0 <= i < |ts| - k
      ensures WellPlaced(ts[k..][i], Text(ts[k..][i..]))
    {
      assert WellPlaced(ts[k + i], Text(ts[k + i..]));
      assert ts[k..][i..] == ts[k + i..];
    }
  }

  /** The boundary of `a` falls between two tokens of the whole: it cuts no reference. */
  ghost predicate CutsNoReference(a: string, b: string) {
    exists k :: 0 <= k <= |Tokens(a + b)| && Text(Tokens(a + b)[..k]) == a
  }

  lemma CutSplits(a: string, b: string, k: nat)
    requires k <= |Tokens(a + b)| && Text(Tokens(a + b)[..k]) == a
    ensures Tokens(a + b)[..k] == Tokens(a) && Tokens(a + b)[k..] == Tokens(b)
  {
    hide Canonical, Tokens, Text;
    var ts := Tokens(a + b);
    TokensAreLossless(a + b);
    assert ts == ts[..k] + ts[k..];
    TextConcat(ts[..k], ts[k..]);
    assert a + Text(ts[k..]) == a + b;
    assert (a + b)[|a|..] == b && (a + Text(ts[k..]))[|a|..] == Text(ts[k..]);
    CanonicalSplits(ts, k);
    TokensAreUnique(ts[..k]);
    TokensAreUnique(ts[k..]);
  }

  /** Splitting distributes over a concatenation exactly when the boundary cuts no reference. */
  lemma SplitsApartExactly(a: string, b: string)
    ensures Tokens(a + b) == Tokens(a) + Tokens(b) <==> CutsNoReference(a, b)
  {
    hide Canonical, Tokens, Text;
    var ts := Tokens(a + b);
    TokensAreLossless(a);
    if ts == Tokens(a) + Tokens(b) {
      assert ts[..|Tokens(a)|] == Tokens(a);
    }
    if CutsNoReference(a, b) {
      var k :| 0 <= k <= |ts| && Text(ts[..k]) == a;
      CutSplits(a, b, k);
      assert ts == ts[..k] + ts[k..];
    }
  }

  /** Interpolating the parts and the whole is then the same. */
  lemma InterpolateDistributes(a: string, b: string, env: map<string, string>)
    requires CutsNoReference(a, b)
    ensures Interpolate(a + b, env) == Join(Interpolate(a, env), Interpolate(b, env))
  {
    SplitsApartExactly(a, b);
    ExpandConcat(Tokens(a), Tokens(b), env);
  }

  /** A substituted value is never scanned again: around any reference the result is the value as it is,
      whatever it contains. */
  lemma ValuesAreVerbatim(a: string, name: string, b: string, env: map<string, string>)
    requires name != "" && '}' !in name && name in env
    requires CutsNoReference(a, Reference(name).Text() + b)
    requires Interpolate(a, env).Expanded? && Interpolate(b, env).Expanded?
    ensures Interpolate(a + (Reference(name).Text() + b), env) ==
            Expanded(Interpolate(a, env).text + env[name] + Interpolate(b, env).text)
  {
    hide CutsNoReference, Token.Text;
    var right := Reference(name).Text() + b;
    InterpolateDistributes(a, right, env);
    LeadingReference(name, b, env);
    assert Interpolate(a, env).text + (env[name] + Interpolate(b, env).text) ==
           Interpolate(a, env).text + env[name] + Interpolate(b, env).text;
  }

  lemma LeadingReference(name: string, b: string, env: map<string, string>)
    requires name != "" && '}' !in name && name in env
    ensures Interpolate(Reference(name).Text() + b, env) == Interpolate(b, env).After(env[name])
  {
    var s := Reference(name).Text() + b;
    ReferenceTextStarts(name, b);
    assert s[2..] == name + "}" + b && |s| >= 2;
    NamedReference(s, env, |name|) by { FirstClose(s[2..], |name|); }
  }
}
