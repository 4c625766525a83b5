/** The suggestion engine of `torvyn-config/src/error.rs`: the two-row Levenshtein distance, what it measures,
    and the nearest-key selector on top of it. */
module EditDistance {
  import opened Wrappers

  function Front(s: string): string
    requires s != []
  {
    s[..|s| - 1]
  }

  function Last(s: string): char
    requires s != []
  {
    s[|s| - 1]
  }

  /** The recurrence the rows tabulate, on whole strings. */
  function Lev(a: string, b: string): nat
    decreases |a| + |b|
  {
    if a == [] then |b|
    else if b == [] then |a|
    else
      var substitution := Lev(Front(a), Front(b)) + if Last(a) != Last(b) then 1 else 0;
      Min(Min(substitution, Lev(Front(a), b) + 1), Lev(a, Front(b)) + 1)
  }

  lemma LevOfPrefixes(a: string, b: string, i: nat, j: nat)
    requires i < |a| && j < |b|
    ensures Lev(a[..i + 1], b[..j + 1]) ==
            Min(Min(Lev(a[..i], b[..j]) + (if a[i] != b[j] then 1 else 0), Lev(a[..i], b[..j + 1]) + 1), Lev(a[..i + 1], b[..j]) + 1)
  {
    assert Front(a[..i + 1]) == a[..i] && Front(b[..j + 1]) == b[..j];
  }

  lemma LevOfLast(a: string, b: string)
    requires a != [] && b != []
    ensures Lev(a, b) ==
            Min(Min(Lev(Front(a), Front(b)) + (if Last(a) != Last(b) then 1 else 0), Lev(Front(a), b) + 1), Lev(a, Front(b)) + 1)
  {
    hide Lev;
    LevOfPrefixes(a, b, |a| - 1, |b| - 1);
    assert a[..|a|] == a && b[..|b|] == b;
  }

  lemma LevOfEmpty(s: string)
    ensures Lev([], s) == |s| && Lev(s, []) == |s|
  {
  }

  /** Two rows, swapped after each character of `a`. */
  method EditDistance(a: string, b: string) returns (d: nat)
    ensures d == Lev(a, b)
  {
    hide Lev;
    var previous := new nat[|b| + 1](j => j);
    var current := new nat[|b| + 1](_ => 0);
    forall j | 0 <= j <= |b|
      ensures Lev(a[..0], b[..j]) == j
    {
      LevOfEmpty(b[..j]);
    }
    for i := 0 to |a|
      invariant previous != current && previous.Length == current.Length == |b| + 1
      invariant fresh(previous) && fresh(current)
      invariant forall j :: 0 <= j <= |b| ==> previous[j] == Lev(a[..i], b[..j])
    {
      current[0] := i + 1;
      LevOfEmpty(a[..i + 1]);
      for j := 0 to |b|
        invariant forall k :: 0 <= k <= |b| ==> previous[k] == Lev(a[..i], b[..k])
        invariant forall k :: 0 <= k <= j ==> current[k] == Lev(a[..i + 1], b[..k])
      {
        var substitution := previous[j] + if a[i] != b[j] then 1 else 0;
        current[j + 1] := Min(Min(substitution, previous[j + 1] + 1), current[j] + 1);
        LevOfPrefixes(a, b, i, j);
      }
      previous, current := current, previous;
    }
    assert a[..|a|] == a && b[..|b|] == b;
    return previous[|b|];
  }

  // ---------------------------------------------------------------------------
  // Edit scripts
  // ---------------------------------------------------------------------------

  datatype Edit = Insert(at: nat, c: char) | Delete(at: nat) | Substitute(at: nat, c: char)
  {
    predicate Fits(s: string) {
      match this
      case Insert(i, _) => i <= |s|
      case Delete(i) => i < |s|
      case Substitute(i, _) => i < |s|
    }

    function Apply(s: string): string
      requires Fits(s)
    {
      match this
      case Insert(i, c) => s[..i] + [c] + s[i..]
      case Delete(i) => s[..i] + s[i + 1..]
      case Substitute(i, c) => s[i := c]
    }
  }

  /** The script turns `s` into `t`, one edit after the other. */
  predicate Turns(script: seq<Edit>, s: string, t: string)
    decreases |script|
  {
    if script == [] then s == t
    else script[0].Fits(s) && Turns(script[1..], script[0].Apply(s), t)
  }

  lemma {:induction false} TurnsConcat(x: seq<Edit>, y: seq<Edit>, s: string, t: string, u: string)
    requires Turns(x, s, t) && Turns(y, t, u)
    ensures Turns(x + y, s, u)
    decreases |x|
  {
    if x == [] {
      assert x + y == y;
    } else {
      TurnsConcat(x[1..], y, x[0].Apply(s), t, u);
      assert (x + y)[1..] == x[1..] + y;
    }
  }

  /** A script for a prefix works in front of any last character. */
  lemma {:induction false} TurnsInFront(script: seq<Edit>, s: string, t: string, c: char)
    requires Turns(script, s, t)
    ensures Turns(script, s + [c], t + [c])
    decreases |script|
  {
    if script != [] {
      assert script[0].Apply(s + [c]) == script[0].Apply(s) + [c];
      TurnsInFront(script[1..], script[0].Apply(s), t, c);
    }
  }

  lemma TurnsOne(e: Edit, s: string, t: string)
    requires e.Fits(s) && e.Apply(s) == t
    ensures Turns([e], s, t)
  {
    assert Turns([], t, t);
  }

  lemma ThenInsert(rest: seq<Edit>, a: string, b: string) returns (script: seq<Edit>)
    requires b != [] && Turns(rest, a, Front(b))
    ensures Turns(script, a, b) && |script| == |rest| + 1
  {
    var e := Insert(|b| - 1, Last(b));
    TurnsOne(e, Front(b), b);
    TurnsConcat(rest, [e], a, Front(b), b);
    script := rest + [e];
  }

  lemma DeleteThen(rest: seq<Edit>, a: string, b: string) returns (script: seq<Edit>)
    requires a != [] && Turns(rest, Front(a), b)
    ensures Turns(script, a, b) && |script| == |rest| + 1
  {
    var e := Delete(|a| - 1);
    assert e.Apply(a) == Front(a);
    script := [e] + rest;
    assert script[1..] == rest;
  }

  lemma SplitLast(s: string)
    requires s != []
    ensures Front(s) + [Last(s)] == s
  {
  }

  lemma SubstituteLast(s: string, x: char, y: char)
    ensures Substitute(|s|, y).Fits(s + [x]) && Substitute(|s|, y).Apply(s + [x]) == s + [y]
  {
  }

  lemma ThenSubstitute(rest: seq<Edit>, a: string, b: string) returns (script: seq<Edit>)
    requires a != [] && b != [] && Turns(rest, Front(a), Front(b))
    ensures Turns(script, a, b) && |script| == |rest| + if Last(a) != Last(b) then 1 else 0
  {
    hide Turns, Front, Last, Edit.Apply, Edit.Fits;
    TurnsInFront(rest, Front(a), Front(b), Last(a));
    SplitLast(a);
    SplitLast(b);
    if Last(a) == Last(b) {
      script := rest;
    } else {
      var mid := Front(b) + [Last(a)];
      var e := Substitute(|Front(b)|, Last(b));
      SubstituteLast(Front(b), Last(a), Last(b));
      TurnsOne(e, mid, b);
      TurnsConcat(rest, [e], a, mid, b);
      script := rest + [e];
    }
  }

  /** A script as long as the distance. */
  lemma {:induction false} BestScript(a: string, b: string) returns (script: seq<Edit>)
    ensures Turns(script, a, b) && |script| == Lev(a, b)
    decreases |a| + |b|
  {
    hide Turns, Front, Last;
    if a == [] && b == [] {
      TurnsNothing(a);
      script := [];
    } else if a == [] || (b != [] && Lev(a, b) == Lev(a, Front(b)) + 1) {
      FrontIsShorter(b);
      LevOfEmpty(Front(b));
      var rest := BestScript(a, Front(b));
      script := ThenInsert(rest, a, b);
    } else if b == [] || Lev(a, b) == Lev(Front(a), b) + 1 {
      FrontIsShorter(a);
      LevOfEmpty(Front(a));
      var rest := BestScript(Front(a), b);
      script := DeleteThen(rest, a, b);
    } else {
      FrontIsShorter(a);
      FrontIsShorter(b);
      var rest := BestScript(Front(a), Front(b));
      script := ThenSubstitute(rest, a, b);
    }
  }

  lemma TurnsNothing(s: string)
    ensures Turns([], s, s)
  {
  }

  lemma FrontIsShorter(s: string)
    requires s != []
    ensures |Front(s)| == |s| - 1
  {
  }

  ghost predicate Near(m: nat, n: nat) {
    m <= n + 1 && n <= m + 1
  }

  lemma {:induction false} AppendIsNear(s: string, c: char, b: string)
    ensures Near(Lev(s, b), Lev(s + [c], b))
    decreases |b|
  {
    assert Front(s + [c]) == s && Last(s + [c]) == c;
    if b != [] {
      AppendIsNear(s, c, Front(b));
      assert s != [] ==> Lev(s, b) <= Lev(s, Front(b)) + 1;
    }
  }

  lemma LeastIsNear(x: nat, y: nat, z: nat, u: nat, v: nat, w: nat)
    requires Near(x, u) && Near(y, v) && Near(z, w)
    ensures Near(Min(Min(x, y), z), Min(Min(u, v), w))
  {
  }

  lemma LengthsAreNear(n: nat)
    ensures Near(n, n + 1)
  {
  }

  lemma NearMoves(m: nat, n: nat, d: nat)
    ensures Near(m, n) <==> Near(m + d, n + d)
  {
  }

  lemma {:induction false} InsertIsNear(s: string, i: nat, c: char, b: string)
    requires i <= |s|
    ensures Near(Lev(s, b), Lev(Insert(i, c).Apply(s), b))
    decreases |s| + |b|
  {
    hide Lev, Near, Min;
    var t := Insert(i, c).Apply(s);
    LevOfEmpty(s);
    LevOfEmpty(t);
    if i == |s| {
      assert t == s + [c];
      AppendIsNear(s, c, b);
    } else if b == [] {
      LengthsAreNear(|s|);
    } else {
      assert Front(t) == Insert(i, c).Apply(Front(s)) && Last(t) == Last(s);
      LevOfLast(s, b);
      LevOfLast(t, b);
      var f, g := Front(s), Front(t);
      var d := if Last(s) != Last(b) then 1 else 0;
      InsertIsNear(f, i, c, Front(b));
      InsertIsNear(f, i, c, b);
      InsertIsNear(s, i, c, Front(b));
      NearMoves(Lev(f, Front(b)), Lev(g, Front(b)), d);
      NearMoves(Lev(f, b), Lev(g, b), 1);
      NearMoves(Lev(s, Front(b)), Lev(t, Front(b)), 1);
      LeastIsNear(Lev(f, Front(b)) + d, Lev(f, b) + 1, Lev(s, Front(b)) + 1, Lev(g, Front(b)) + d, Lev(g, b) + 1, Lev(t, Front(b)) + 1);
    }
  }

  lemma {:induction false} SubstituteIsNear(s: string, i: nat, c: char, b: string)
    requires i < |s|
    ensures Near(Lev(s, b), Lev(s[i := c], b))
    decreases |s| + |b|
  {
    var t := s[i := c];
    if b != [] {
      SubstituteIsNear(s, i, c, Front(b));
      if i == |s| - 1 {
        assert Front(t) == Front(s);
      } else {
        assert Front(t) == Front(s)[i := c] && Last(t) == Last(s);
        SubstituteIsNear(Front(s), i, c, Front(b));
        SubstituteIsNear(Front(s), i, c, b);
      }
    }
  }

  /** One edit changes the distance to anything by at most one. */
  lemma EditIsNear(e: Edit, s: string, b: string)
    requires e.Fits(s)
    ensures Near(Lev(s, b), Lev(e.Apply(s), b))
  {
    match e
    case Insert(i, c) => InsertIsNear(s, i, c, b);
    case Delete(i) =>
      var t := e.Apply(s);
      assert Insert(i, s[i]).Apply(t) == s;
      InsertIsNear(t, i, s[i], b);
    case Substitute(i, c) => SubstituteIsNear(s, i, c, b);
  }

  lemma {:induction false} LevSelf(s: string)
    ensures Lev(s, s) == 0
    decreases |s|
  {
    if s != [] {
      LevSelf(Front(s));
    }
  }

  /** No script is shorter than the distance. */
  lemma {:induction false} NoShorterScript(script: seq<Edit>, a: string, b: string)
    requires Turns(script, a, b)
    ensures Lev(a, b) <= |script|
    decreases |script|
  {
    if script == [] {
      LevSelf(a);
    } else {
      EditIsNear(script[0], a, b);
      NoShorterScript(script[1..], script[0].Apply(a), b);
    }
  }

  /** The distance is the length of a shortest edit script: `n` edits can do it exactly when `n` is at least
      the distance. */
  lemma LevIsShortestScript(a: string, b: string)
    ensures exists script :: Turns(script, a, b) && |script| == Lev(a, b)
    ensures forall script :: Turns(script, a, b) ==> Lev(a, b) <= |script|
  {
    var best := BestScript(a, b);
    forall script | Turns(script, a, b)
      ensures Lev(a, b) <= |script|
    {
      NoShorterScript(script, a, b);
    }
  }

  // ---------------------------------------------------------------------------
  // A metric
  // ---------------------------------------------------------------------------

  lemma ZeroExactlyOnEquals(a: string, b: string)
    ensures Lev(a, b) == 0 <==> a == b
  {
    LevSelf(a);
    var script := BestScript(a, b);
  }

  lemma {:induction false} Symmetric(a: string, b: string)
    ensures Lev(a, b) == Lev(b, a)
    decreases |a| + |b|
  {
    if a != [] && b != [] {
      Symmetric(Front(a), Front(b));
      Symmetric(Front(a), b);
      Symmetric(a, Front(b));
    }
  }

  lemma Triangle(a: string, b: string, c: string)
    ensures Lev(a, c) <= Lev(a, b) + Lev(b, c)
  {
    var x := BestScript(a, b);
    var y := BestScript(b, c);
    TurnsConcat(x, y, a, b, c);
    NoShorterScript(x + y, a, c);
  }

  lemma {:induction false} BetweenLengths(a: string, b: string)
    ensures |a| - |b| <= Lev(a, b) && |b| - |a| <= Lev(a, b)
    ensures Lev(a, b) <= if |a| >= |b| then |a| else |b|
    decreases |a| + |b|
  {
    if a != [] && b != [] {
      BetweenLengths(Front(a), Front(b));
      BetweenLengths(Front(a), b);
      BetweenLengths(a, Front(b));
    }
  }

  // ---------------------------------------------------------------------------
  // The nearest key
  // ---------------------------------------------------------------------------

  function Utf8Width(c: char): nat {
    var n := c as int;
    if n < 0x80 then 1 else if n < 0x800 then 2 else if n < 0x1_0000 then 3 else 4
  }

  /** The length the source's `len` counts: bytes of UTF-8. */
  function Utf8Length(s: string): nat {
    if s == [] then 0 else Utf8Width(s[0]) + Utf8Length(s[1..])
  }

  /** The code points UTF-8 writes in `n` bytes or fewer: seven bits in one, otherwise six in each byte but the
      first and as many in that as the length mark leaves. */
  function Room(n: nat): nat
    requires 1 <= n <= 4
  {
    match n case 1 => 0x80 case 2 => 0x20 * 0x40 case 3 => 0x10 * 0x40 * 0x40 case 4 => 0x08 * 0x40 * 0x40 * 0x40
  }

  /** Each character counts as the fewest bytes it can be written in. */
  lemma WidthIsLeast(c: char)
    ensures 1 <= Utf8Width(c) <= 4 && c as int < Room(Utf8Width(c))
    ensures forall n :: 1 <= n < Utf8Width(c) ==> Room(n) <= c as int
  {
  }

  lemma {:induction false} LengthAdds(s: string, t: string)
    ensures Utf8Length(s + t) == Utf8Length(s) + Utf8Length(t)
  {
    if s == [] {
      assert s + t == t;
    } else {
      assert (s + t)[1..] == s[1..] + t;
      LengthAdds(s[1..], t);
    }
  }

  lemma {:induction false} AsciiLength(s: string)
    requires forall i :: 0 <= i < |s| ==> s[i] as int < 0x80
    ensures Utf8Length(s) == |s|
  {
    if s != [] {
      AsciiLength(s[1..]);
    }
  }

  /** A third of the key's length, at least one edit and at most three. */
  function Budget(found: string): (n: nat)
    ensures 1 <= n <= 3
    ensures n < 3 ==> Utf8Length(found) < 3 * (n + 1)
    ensures n > 1 ==> 3 * n <= Utf8Length(found)
  {
    var third := Utf8Length(found) / 3;
    if third < 1 then 1 else if third > 3 then 3 else third
  }

  /** The first of the closest keys, among those within budget. */
  function Nearest(found: string, known: seq<string>, budget: nat): (r: Option<nat>)
    ensures r.Some? ==> r.value < |known|
  {
    if known == [] then None
    else
      var rest := Nearest(found, known[1..], budget);
      var d := Lev(found, known[0]);
      if d > budget then (if rest.Some? then Some(rest.value + 1) else None)
      else if rest.Some? && Lev(found, known[rest.value + 1]) < d then Some(rest.value + 1)
      else Some(0)
  }

  function NearestKnownKey(found: string, known: seq<string>): Option<string> {
    match Nearest(found, known, Budget(found))
    case None => None
    case Some(i) => Some(known[i])
  }

  /** The key at `i` is within budget, no other is closer, and no earlier one is as close. */
  ghost predicate FirstMinimum(found: string, known: seq<string>, budget: nat, i: nat) {
    && i < |known| && Lev(found, known[i]) <= budget
    && (forall k :: 0 <= k < |known| ==> Lev(found, known[i]) <= Lev(found, known[k]))
    && (forall k :: 0 <= k < i ==> Lev(found, known[i]) < Lev(found, known[k]))
  }

  lemma FirstMinimumShifts(found: string, known: seq<string>, budget: nat, i: nat)
    requires known != [] && FirstMinimum(found, known[1..], budget, i)
    ensures Lev(found, known[i + 1]) < Lev(found, known[0]) ==> FirstMinimum(found, known, budget, i + 1)
    ensures Lev(found, known[0]) <= Lev(found, known[i + 1]) ==> FirstMinimum(found, known, budget, 0)
  {
    hide Lev;
    assert forall k :: 1 <= k < |known| ==> known[k] == known[1..][k - 1];
  }

  lemma {:induction false} NearestIsFirstMinimum(found: string, known: seq<string>, budget: nat)
    ensures var r := Nearest(found, known, budget);
            && (r.None? <==> forall k :: 0 <= k < |known| ==> Lev(found, known[k]) > budget)
            && (r.Some? ==> FirstMinimum(found, known, budget, r.value))
  {
    hide Lev;
    if known != [] {
      NearestIsFirstMinimum(found, known[1..], budget);
      var rest := Nearest(found, known[1..], budget);
      assert forall k :: 1 <= k < |known| ==> known[k] == known[1..][k - 1];
      if rest.Some? {
        hide FirstMinimum;
        FirstMinimumShifts(found, known, budget, rest.value);
      }
    }
  }

  /** How many edits a key of `bytes` bytes may be away: one always, two from six bytes on, three from nine. */
  predicate Tolerated(bytes: nat, edits: nat) {
    edits <= 1 || (edits == 2 && bytes >= 6) || (edits == 3 && bytes >= 9)
  }

  lemma BudgetTolerates(found: string, edits: nat)
    ensures edits <= Budget(found) <==> Tolerated(Utf8Length(found), edits)
  {
    hide Utf8Length;
  }

  /** The suggestion is the earliest key that fewest edits reach, and there is none exactly when no script within
      the tolerance of the key's length leads to a key. */
  lemma SuggestsNearest(found: string, known: seq<string>)
    ensures var r, bytes := NearestKnownKey(found, known), Utf8Length(found);
            && (r.None? <==>
                  forall script, k :: 0 <= k < |known| && Turns(script, found, known[k]) ==> !Tolerated(bytes, |script|))
            && (r.Some? ==>
                  exists i :: && 0 <= i < |known| && r.value == known[i] && Tolerated(bytes, Lev(found, known[i]))
                              && (forall k :: 0 <= k < |known| ==> Lev(found, known[i]) <= Lev(found, known[k]))
                              && (forall k :: 0 <= k < i ==> Lev(found, known[i]) < Lev(found, known[k])))
  {
    hide Budget, Tolerated, Nearest, Lev;
    NearestIsFirstMinimum(found, known, Budget(found));
    forall edits: nat { BudgetTolerates(found, edits); }
    forall k | 0 <= k < |known|
      ensures Lev(found, known[k]) > Budget(found) <==>
              forall script :: Turns(script, found, known[k]) ==> !Tolerated(Utf8Length(found), |script|)
    {
      LevIsShortestScript(found, known[k]);
    }
  }

  /** A key that is spelled right is always its own suggestion. */
  lemma KnownKeySuggestsItself(known: seq<string>, i: nat)
    requires i < |known|
    ensures NearestKnownKey(known[i], known) == Some(known[i])
  {
    NearestIsFirstMinimum(known[i], known, Budget(known[i]));
    LevSelf(known[i]);
    var r := Nearest(known[i], known, Budget(known[i]));
    if r.Some? {
      ZeroExactlyOnEquals(known[i], known[r.value]);
    }
  }
}
