/** Memory sizes in configuration (`parse_memory_size` in `torvyn-config/src/runtime.rs`) and in component
    manifests (`parse_byte_size` in `torvyn-contracts/src/validator.rs`). */
module Sizes {
  import opened Wrappers
  import opened UnknownField

  const U64_MAX: nat := 0xFFFF_FFFF_FFFF_FFFF

  function TrimEnd(s: string): string {
    if s != [] && IsSpace(s[|s| - 1]) then TrimEnd(s[..|s| - 1]) else s
  }

  function Trim(s: string): string {
    TrimStart(TrimEnd(s))
  }

  predicate IsDigit(c: char) {
    '0' <= c <= '9'
  }

  /** Where the leading digits end. */
  function DigitsEnd(s: string): (k: nat)
    ensures k <= |s| && (forall i :: 0 <= i < k ==> IsDigit(s[i])) && (k < |s| ==> !IsDigit(s[k]))
  {
    if s != [] && IsDigit(s[0]) then 1 + DigitsEnd(s[1..]) else 0
  }

  function Value(digits: string): nat
    requires forall i :: 0 <= i < |digits| ==> IsDigit(digits[i])
  {
    if digits == [] then 0
    else
      var last := digits[|digits| - 1];
      assert IsDigit(last);
      Value(digits[..|digits| - 1]) * 10 + (last as int - '0' as int)
  }

  /** `str::parse::<u64>`: digits, possibly behind a plus sign, that do not overflow. */
  function ParseU64(s: string): Option<nat> {
    var digits := if s != [] && s[0] == '+' then s[1..] else s;
    if digits != [] && DigitsEnd(digits) == |digits| && Value(digits) <= U64_MAX then Some(Value(digits)) else None
  }

  function LowerChar(c: char): char {
    if 'A' <= c <= 'Z' then (c as int + 32) as char else c
  }

  function Lower(s: string): (l: string)
    ensures |l| == |s| && forall i :: 0 <= i < |s| ==> l[i] == LowerChar(s[i])
  {
    if s == [] then [] else [LowerChar(s[0])] + Lower(s[1..])
  }

  function Multiplier(suffix: string): Option<nat> {
    var lower := Lower(suffix);
    if lower == "" || lower == "b" then Some(1)
    else if lower == "kib" || lower == "k" then Some(1024)
    else if lower == "mib" || lower == "m" then Some(1024 * 1024)
    else if lower == "gib" || lower == "g" then Some(1024 * 1024 * 1024)
    else None
  }

  function Power(times: nat): nat {
    if times == 0 then 1 else 1024 * Power(times - 1)
  }

  /** The spellings of the units, bytes first. */
  function Spellings(i: nat): set<string>
    requires i < 4
  {
    match i case 0 => {"", "b"} case 1 => {"k", "kib"} case 2 => {"m", "mib"} case 3 => {"g", "gib"}
  }

  /** The same letters, whichever case the first text has them in. */
  predicate SameLetters(s: string, lower: string) {
    && |s| == |lower|
    && forall i :: 0 <= i < |s| ==> s[i] == lower[i] || ('a' <= lower[i] <= 'z' && s[i] as int + 32 == lower[i] as int)
  }

  /** A spelling, in any case, of the unit of 1024 to the `i`. */
  ghost predicate Spells(unit: string, i: nat) {
    i < 4 && exists u :: u in Spellings(i) && SameLetters(unit, u)
  }

  lemma LowerMeans(s: string, lower: string)
    requires forall i :: 0 <= i < |lower| ==> 'a' <= lower[i] <= 'z'
    ensures Lower(s) == lower <==> SameLetters(s, lower)
  {
    if SameLetters(s, lower) {
      forall i | 0 <= i < |s|
        ensures Lower(s)[i] == lower[i]
      {
        var c, l := s[i] as int, lower[i] as int;
        assert c == l || c + 32 == l;
      }
    }
  }

  /** What a unit multiplies by is said by its spelling, and nothing else is a unit. */
  lemma MultiplierMeans(unit: string, m: nat)
    ensures Multiplier(unit) == Some(m) <==> exists i :: Spells(unit, i) && m == Power(i)
  {
    hide Lower, SameLetters;
    LowerMeans(unit, "");
    LowerMeans(unit, "b");
    LowerMeans(unit, "k");
    LowerMeans(unit, "kib");
    LowerMeans(unit, "m");
    LowerMeans(unit, "mib");
    LowerMeans(unit, "g");
    LowerMeans(unit, "gib");
    Powers();
    hide Power;
    SpellingIs(unit);
    hide Spells;
  }

  lemma Powers()
    ensures Power(0) == 1 && Power(1) == 1024 && Power(2) == 1024 * 1024 && Power(3) == 1024 * 1024 * 1024
  {
  }

  lemma SpellingIs(unit: string)
    ensures Spells(unit, 0) <==> SameLetters(unit, "") || SameLetters(unit, "b")
    ensures Spells(unit, 1) <==> SameLetters(unit, "k") || SameLetters(unit, "kib")
    ensures Spells(unit, 2) <==> SameLetters(unit, "m") || SameLetters(unit, "mib")
    ensures Spells(unit, 3) <==> SameLetters(unit, "g") || SameLetters(unit, "gib")
    ensures forall i :: Spells(unit, i) ==> i == 0 || i == 1 || i == 2 || i == 3
  {
    hide SameLetters;
    assert "" in Spellings(0) && "b" in Spellings(0) && "k" in Spellings(1) && "kib" in Spellings(1);
    assert "m" in Spellings(2) && "mib" in Spellings(2) && "g" in Spellings(3) && "gib" in Spellings(3);
  }

  /** Digits, then a unit in any case; an error when the number or the product does not fit in `u64`. */
  function ParseMemorySize(s: string): Option<nat> {
    var t := Trim(s);
    var end := DigitsEnd(t);
    if end == 0 then None
    else match ParseU64(t[..end])
      case None => None
      case Some(number) =>
        match Multiplier(Trim(t[end..]))
        case None => None
        case Some(m) =>
          ProductBound(number, m);
          if number * m <= U64_MAX then Some(number * m) else None
  }

  predicate EndsWith(s: string, suffix: string) {
    |suffix| <= |s| && s[|s| - |suffix|..] == suffix
  }

  function Scaled(s: string, cut: nat, m: nat): Option<nat>
    requires cut <= |s|
  {
    match ParseU64(Trim(s[..|s| - cut]))
    case None => None
    case Some(n) =>
      ProductBound(n, m);
      Some(n * m)
  }

  /** The number a text stands for to the manifest's parser: units spelled exactly so. */
  function SizeWritten(s: string): Option<nat> {
    var t := Trim(s);
    if EndsWith(t, "GiB") then Scaled(t, 3, 1024 * 1024 * 1024)
    else if EndsWith(t, "MiB") then Scaled(t, 3, 1024 * 1024)
    else if EndsWith(t, "KiB") then Scaled(t, 3, 1024)
    else if EndsWith(t, "B") then Scaled(t, 1, 1)
    else ParseU64(t)
  }

  /** `n * 1024 * ... * 1024` in `u64`, wrapping at each multiplication. */
  function TimesKib(n: nat, times: nat): nat
    decreases times
  {
    if times == 0 then n else TimesKib(n * 1024 % (U64_MAX + 1), times - 1)
  }

  function Kibs(s: string, times: nat): Option<nat>
    requires 3 <= |s|
  {
    match ParseU64(Trim(s[..|s| - 3])) case None => None case Some(n) => Some(TimesKib(n, times))
  }

  /** The manifest's parser. It does not check its multiplications, which wrap where overflow is not trapped. */
  function ParseByteSize(s: string): Option<nat> {
    var t := Trim(s);
    if EndsWith(t, "GiB") then Kibs(t, 3)
    else if EndsWith(t, "MiB") then Kibs(t, 2)
    else if EndsWith(t, "KiB") then Kibs(t, 1)
    else if EndsWith(t, "B") then ParseU64(Trim(t[..|t| - 1]))
    else ParseU64(t)
  }

  // ---------------------------------------------------------------------------
  // Printed numbers
  // ---------------------------------------------------------------------------

  function Decimal(n: nat): (digits: string)
    ensures digits != [] && forall i :: 0 <= i < |digits| ==> IsDigit(digits[i])
  {
    var last := ['0' + (n % 10) as char];
    if n < 10 then last else Decimal(n / 10) + last
  }

  lemma {:induction false} ValueOfDecimal(n: nat)
    ensures Value(Decimal(n)) == n
  {
    var d := Decimal(n);
    if n >= 10 {
      ValueOfDecimal(n / 10);
      assert d[..|d| - 1] == Decimal(n / 10);
    } else {
      assert d[..|d| - 1] == [];
    }
  }

  lemma {:induction false} DigitsEndAt(digits: string, rest: string)
    requires (forall i :: 0 <= i < |digits| ==> IsDigit(digits[i])) && (rest != [] ==> !IsDigit(rest[0]))
    ensures DigitsEnd(digits + rest) == |digits|
  {
    if digits != [] {
      assert (digits + rest)[1..] == digits[1..] + rest;
      DigitsEndAt(digits[1..], rest);
    } else {
      assert digits + rest == rest;
    }
  }

  predicate AllSpaces(s: string) {
    forall c :: c in s ==> IsSpace(c)
  }

  lemma {:induction false} TrimStartOver(spaces: string, s: string)
    requires AllSpaces(spaces) && (s != [] ==> !IsSpace(s[0]))
    ensures TrimStart(spaces + s) == s
  {
    hide IsSpace;
    if spaces == [] {
      assert spaces + s == s;
    } else {
      assert (spaces + s)[1..] == spaces[1..] + s;
      TrimStartOver(spaces[1..], s);
    }
  }

  lemma {:induction false} TrimEndOver(s: string, spaces: string)
    requires AllSpaces(spaces) && (s != [] ==> !IsSpace(s[|s| - 1]))
    ensures TrimEnd(s + spaces) == s
  {
    hide IsSpace;
    if spaces == [] {
      assert s + spaces == s;
    } else {
      var front := spaces[..|spaces| - 1];
      assert (s + spaces)[..|s + spaces| - 1] == s + front;
      assert (s + spaces)[|s + spaces| - 1] == spaces[|spaces| - 1];
      TrimEndOver(s, front);
    }
  }

  /** Trimming takes the spaces off both ends of what has none at its ends. */
  lemma TrimOver(before: string, s: string, after: string)
    requires AllSpaces(before) && AllSpaces(after) && s != [] && !IsSpace(s[0]) && !IsSpace(s[|s| - 1])
    ensures Trim(before + s + after) == s
  {
    TrimEndOver(before + s, after);
    TrimStartOver(before, s);
  }

  lemma MultiplierIsWord(unit: string)
    requires Multiplier(unit).Some? && unit != []
    ensures !IsSpace(unit[0]) && !IsDigit(unit[0]) && !IsSpace(unit[|unit| - 1])
  {
    var lower := Lower(unit);
    assert lower[0] in "bkmg" && lower[|lower| - 1] in "bkmg";
  }

  /** Digits with any spelling of a unit, with spaces around and between: the product when it fits, an error
      otherwise. */
  lemma DigitsParse(digits: string, unit: string, before: string, between: string, after: string)
    requires digits != [] && forall k :: 0 <= k < |digits| ==> IsDigit(digits[k])
    requires Multiplier(unit).Some? && AllSpaces(before) && AllSpaces(between) && AllSpaces(after) && (unit == [] ==> between == [])
    ensures ParseMemorySize(before + (digits + between + unit) + after) ==
            var product := Value(digits) * Multiplier(unit).value; if product <= U64_MAX then Some(product) else None
  {
    hide IsSpace, IsDigit, Multiplier, ParseU64, Trim, Value, AllSpaces;
    var t := digits + between + unit;
    PrintedEnds(digits, between, unit);
    TrimOver(before, t, after);
    DigitsSplit(digits, between, unit);
    NumberParses(digits);
    TailTrims(between, unit);
    MultiplierIsPositive(unit);
    ProductBound(Value(digits), Multiplier(unit).value);
  }

  lemma DigitsSplit(digits: string, between: string, unit: string)
    requires digits != [] && forall k :: 0 <= k < |digits| ==> IsDigit(digits[k])
    requires Multiplier(unit).Some? && AllSpaces(between) && (unit == [] ==> between == [])
    ensures var t := digits + between + unit;
            DigitsEnd(t) == |digits| && t[..|digits|] == digits && t[|digits|..] == between + unit
  {
    hide IsSpace, IsDigit, Multiplier;
    PrintedEnds(digits, between, unit);
    var tail := between + unit;
    assert digits + between + unit == digits + tail;
    DigitsEndAt(digits, tail);
  }

  /** So a printed number and the unit of 1024 to the `i`, in any spelling, come out as what they say. */
  lemma PrintedSizeParses(n: nat, unit: string, i: nat, before: string, between: string, after: string)
    requires Spells(unit, i) && AllSpaces(before) && AllSpaces(between) && AllSpaces(after) && (unit == [] ==> between == [])
    ensures ParseMemorySize(before + (Decimal(n) + between + unit) + after) ==
            if n * Power(i) <= 0xFFFF_FFFF_FFFF_FFFF then Some(n * Power(i)) else None
  {
    hide ParseMemorySize, Spells, Decimal, Power, Multiplier, AllSpaces, Value;
    MultiplierMeans(unit, Power(i));
    DigitsParse(Decimal(n), unit, before, between, after);
    ValueOfDecimal(n);
  }

  lemma MultiplierIsPositive(unit: string)
    requires Multiplier(unit).Some?
    ensures Multiplier(unit).value >= 1
  {
  }

  lemma PrintedEnds(digits: string, between: string, unit: string)
    requires digits != [] && forall i :: 0 <= i < |digits| ==> IsDigit(digits[i])
    requires Multiplier(unit).Some? && AllSpaces(between) && (unit == [] ==> between == [])
    ensures var t := digits + between + unit; !IsSpace(t[0]) && !IsSpace(t[|t| - 1])
    ensures var tail := between + unit; tail != [] ==> !IsDigit(tail[0])
  {
    var t := digits + between + unit;
    assert t[0] == digits[0];
    if unit != [] {
      MultiplierIsWord(unit);
      assert t[|t| - 1] == unit[|unit| - 1];
      assert between != [] ==> between[0] in between;
    } else {
      assert t == digits;
    }
  }

  lemma NumberParses(digits: string)
    requires digits != [] && forall i :: 0 <= i < |digits| ==> IsDigit(digits[i])
    ensures ParseU64(digits) == if Value(digits) <= U64_MAX then Some(Value(digits)) else None
  {
    DigitsEndAt(digits, []);
    assert digits + [] == digits;
  }

  lemma TailTrims(between: string, unit: string)
    requires Multiplier(unit).Some? && AllSpaces(between) && (unit == [] ==> between == [])
    ensures Trim(between + unit) == unit
  {
    if unit != [] {
      MultiplierIsWord(unit);
      TrimOver(between, unit, []);
      assert between + unit + [] == between + unit;
    } else {
      assert between + unit == [];
    }
  }

  lemma ProductBound(n: nat, m: nat)
    ensures 0 <= n * m && (m >= 1 ==> n <= n * m)
  {
  }

  // ---------------------------------------------------------------------------
  // The two parsers agree
  // ---------------------------------------------------------------------------

  lemma {:induction false} TrimEndEnds(s: string)
    ensures TrimEnd(s) != [] ==> !IsSpace(TrimEnd(s)[|TrimEnd(s)| - 1])
  {
    hide IsSpace;
    if s != [] && IsSpace(s[|s| - 1]) {
      TrimEndEnds(s[..|s| - 1]);
    }
  }

  lemma SpaceMore(c: char, spaces: string)
    requires IsSpace(c) && AllSpaces(spaces)
    ensures AllSpaces([c] + spaces)
  {
    hide IsSpace;
  }

  /** What `trim_start` takes off is spaces, and what is left does not start with one. */
  lemma {:induction false} TrimStartSplits(s: string) returns (spaces: string)
    ensures s == spaces + TrimStart(s) && AllSpaces(spaces)
    ensures TrimStart(s) != [] ==> !IsSpace(TrimStart(s)[0])
  {
    hide IsSpace, AllSpaces;
    if s != [] && IsSpace(s[0]) {
      var rest := TrimStartSplits(s[1..]);
      spaces := [s[0]] + rest;
      SpaceMore(s[0], rest);
      assert s == [s[0]] + s[1..];
    } else {
      spaces := [];
      NoSpaces();
    }
  }

  lemma NoSpaces()
    ensures AllSpaces([])
  {
  }

  lemma TrimmedEnds(s: string)
    ensures Trim(s) != [] ==> !IsSpace(Trim(s)[|Trim(s)| - 1])
  {
    TrimEndEnds(s);
    var spaces := TrimStartSplits(TrimEnd(s));
  }

  lemma TrimOfEnded(s: string)
    requires s != [] ==> !IsSpace(s[|s| - 1])
    ensures Trim(s) == TrimStart(s)
  {
    TrimEndOver(s, []);
    assert s + [] == s;
  }

  /** A trimmed size: digits, spaces, and a unit that starts and ends it when there is one. */
  ghost predicate Shape(t: string, digits: string, spaces: string, unit: string) {
    && t == digits + spaces + unit
    && digits != [] && (forall i :: 0 <= i < |digits| ==> IsDigit(digits[i]))
    && AllSpaces(spaces)
    && (unit == [] ==> spaces == [])
    && (unit != [] ==> !IsSpace(unit[0]) && !IsDigit(unit[0]) && !IsSpace(unit[|unit| - 1]))
  }

  /** What the memory parser accepts has that shape, and its value is the digits' times the unit's. */
  lemma AcceptedSizeHasShape(s: string) returns (digits: string, spaces: string, unit: string)
    requires ParseMemorySize(s).Some?
    ensures Shape(Trim(s), digits, spaces, unit) && Multiplier(unit).Some? && ParseU64(digits).Some?
    ensures ParseMemorySize(s) == Some(ParseU64(digits).value * Multiplier(unit).value)
  {
    hide ParseU64, Multiplier, Trim, TrimStart;
    var t := Trim(s);
    var end := DigitsEnd(t);
    digits := t[..end];
    var rest := t[end..];
    TrimmedEnds(s);
    assert rest != [] ==> rest[|rest| - 1] == t[|t| - 1];
    TrimOfEnded(rest);
    unit := Trim(rest);
    spaces := TrimStartSplits(rest);
    if unit != [] {
      MultiplierIsWord(unit);
    }
    LastOfSpaces(spaces);
    assert t == digits + rest && rest == spaces + unit;
  }

  /** The texts that are sizes, and what they are the size of: no others are accepted, and none is read otherwise. */
  lemma SizesExactly(s: string, v: nat)
    ensures ParseMemorySize(s) == Some(v) <==>
            exists digits, spaces, unit, i ::
              Shape(Trim(s), digits, spaces, unit) && Spells(unit, i) && v == Value(digits) * Power(i) && v <= 0xFFFF_FFFF_FFFF_FFFF
  {
    hide ParseMemorySize, Spells, Power, Value, Multiplier, Trim, IsDigit, IsSpace, AllSpaces, ParseU64;
    if ParseMemorySize(s) == Some(v) {
      var digits, spaces, unit := AcceptedSizeHasShape(s);
      ParsedIsValue(digits);
      MultiplierMeans(unit, Multiplier(unit).value);
      MemorySizeFits(s);
      var i :| Spells(unit, i) && Multiplier(unit).value == Power(i);
      assert Shape(Trim(s), digits, spaces, unit) && Spells(unit, i) && v == Value(digits) * Power(i);
    }
    if digits, spaces, unit, i :|
        Shape(Trim(s), digits, spaces, unit) && Spells(unit, i) && v == Value(digits) * Power(i) && v <= U64_MAX {
      MultiplierMeans(unit, Power(i));
      ShapeParses(s, digits, spaces, unit);
    }
  }

  lemma ParsedIsValue(digits: string)
    requires digits != [] && (forall k :: 0 <= k < |digits| ==> IsDigit(digits[k])) && ParseU64(digits).Some?
    ensures ParseU64(digits).value == Value(digits)
  {
    NumberParses(digits);
  }

  lemma ShapeParses(s: string, digits: string, spaces: string, unit: string)
    requires Shape(Trim(s), digits, spaces, unit) && Multiplier(unit).Some?
    ensures ParseMemorySize(s) == var product := Value(digits) * Multiplier(unit).value; if product <= U64_MAX then Some(product) else None
  {
    hide Trim, Multiplier, Value, ParseMemorySize;
    var t := Trim(s);
    assert [] + (digits + spaces + unit) + [] == t;
    DigitsParse(digits, unit, [], spaces, []);
    TrimmedOnce(s);
    SameTrim(s, t);
  }

  /** Trimming twice is trimming once. */
  lemma TrimmedOnce(s: string)
    ensures Trim(Trim(s)) == Trim(s)
  {
    hide IsSpace;
    TrimEndEnds(s);
    var spaces := TrimStartSplits(TrimEnd(s));
    TrimmedEnds(s);
    var t := Trim(s);
    if t != [] {
      TrimOver([], t, []);
      assert [] + t + [] == t;
    }
  }

  lemma SameTrim(s: string, t: string)
    requires Trim(s) == Trim(t)
    ensures ParseMemorySize(s) == ParseMemorySize(t)
  {
  }

  lemma LastOfSpaces(spaces: string)
    requires AllSpaces(spaces)
    ensures spaces != [] ==> IsSpace(spaces[|spaces| - 1])
  {
    if spaces != [] {
      assert spaces[|spaces| - 1] in spaces;
    }
  }

  lemma CutUnit(t: string, digits: string, spaces: string, unit: string)
    requires Shape(t, digits, spaces, unit)
    ensures Trim(t[..|t| - |unit|]) == digits
  {
    assert t[..|t| - |unit|] == [] + digits + spaces;
    TrimOver([], digits, spaces) by { DigitIsNoSpace(digits[0]); DigitIsNoSpace(digits[|digits| - 1]); }
  }

  lemma DigitIsNoSpace(c: char)
    requires IsDigit(c)
    ensures !IsSpace(c)
  {
  }

  /** The last three characters of a text that are neither digits nor spaces belong to its unit. */
  lemma LastThreeInUnit(t: string, digits: string, spaces: string, unit: string)
    requires Shape(t, digits, spaces, unit) && |t| >= 3
    requires forall i :: |t| - 3 <= i < |t| ==> !IsDigit(t[i]) && !IsSpace(t[i])
    ensures |unit| >= 3 && unit[|unit| - 3..] == t[|t| - 3..]
  {
    hide IsDigit, IsSpace;
    HeadIsDigitsOrSpaces(t, digits, spaces, unit);
    var last := t[|t| - |unit| - 1];
    assert IsDigit(last) || IsSpace(last);
  }

  lemma HeadIsDigitsOrSpaces(t: string, digits: string, spaces: string, unit: string)
    requires Shape(t, digits, spaces, unit)
    ensures forall i :: 0 <= i < |t| - |unit| ==> IsDigit(t[i]) || IsSpace(t[i])
  {
    hide IsDigit, IsSpace;
    forall i | 0 <= i < |t| - |unit|
      ensures IsDigit(t[i]) || IsSpace(t[i])
    {
      if i >= |digits| {
        assert t[i] == spaces[i - |digits|] && spaces[i - |digits|] in spaces;
      }
    }
  }

  /** A spelled-out unit at the end of the text is the whole unit. */
  lemma SpelledUnit(t: string, digits: string, spaces: string, unit: string, spelled: string)
    requires Shape(t, digits, spaces, unit) && Multiplier(unit).Some?
    requires spelled in {"GiB", "MiB", "KiB"} && EndsWith(t, spelled)
    ensures unit == spelled
  {
    hide Shape, IsDigit, IsSpace, Multiplier;
    EndsInLetters(t, spelled);
    LastThreeInUnit(t, digits, spaces, unit);
    UnitOfThree(unit);
    assert unit[|unit| - 3..] == unit;
  }

  lemma EndsInLetters(t: string, spelled: string)
    requires spelled in {"GiB", "MiB", "KiB"} && EndsWith(t, spelled)
    ensures |t| >= 3 && t[|t| - 3..] == spelled && forall i :: |t| - 3 <= i < |t| ==> !IsDigit(t[i]) && !IsSpace(t[i])
  {
    forall i | |t| - 3 <= i < |t|
      ensures t[i] == spelled[i - (|t| - 3)]
    {
      assert t[|t| - 3..][i - (|t| - 3)] == t[i];
    }
  }

  lemma UnitOfThree(unit: string)
    requires Multiplier(unit).Some? && |unit| >= 3
    ensures |unit| == 3
  {
  }

  /** A unit that ends in `B` and is not spelled out leaves the manifest's parser letters it refuses. */
  lemma OddlySpelledUnit(t: string, digits: string, spaces: string, unit: string)
    requires Shape(t, digits, spaces, unit) && |unit| > 1 && !IsDigit(unit[0]) && !IsSpace(unit[|unit| - 2])
    ensures ParseU64(Trim(t[..|t| - 1])).None?
  {
    hide IsSpace, IsDigit, Value, Trim;
    var head := digits + spaces + unit[..|unit| - 1];
    assert t[..|t| - 1] == head && head == [] + head + [];
    assert head[0] == digits[0] && head[|head| - 1] == unit[|unit| - 2];
    DigitIsNoSpace(digits[0]);
    DigitsAreNoPlus();
    TrimOver([], head, []);
    var rest := spaces + unit[..|unit| - 1];
    assert head == digits + rest;
    assert rest[0] == if spaces != [] then spaces[0] else unit[0];
    assert spaces != [] ==> spaces[0] in spaces;
    if spaces != [] && IsDigit(spaces[0]) {
      DigitIsNoSpace(spaces[0]);
    }
    DigitsEndAt(digits, rest);
  }

  lemma DigitsAreNoPlus()
    ensures !IsDigit('+')
  {
  }

  lemma UnitEndingInB(unit: string)
    requires Multiplier(unit).Some? && unit != [] && unit[|unit| - 1] == 'B'
    ensures |unit| == 1 ==> Multiplier(unit) == Some(1)
    ensures |unit| > 1 ==> !IsSpace(unit[|unit| - 2])
  {
    var lower := Lower(unit);
    assert lower[|unit| - 1] == 'b';
    if |unit| > 1 {
      assert lower[|unit| - 2] == 'i';
    }
  }

  lemma LastCharacter(t: string, digits: string, spaces: string, unit: string)
    requires Shape(t, digits, spaces, unit)
    ensures unit != [] ==> t[|t| - 1] == unit[|unit| - 1]
    ensures unit == [] ==> t == digits && IsDigit(t[|t| - 1])
  {
    if unit == [] {
      assert t == digits;
    }
  }

  function SpelledMultiplier(spelled: string): nat {
    if spelled == "GiB" then 1024 * 1024 * 1024 else if spelled == "MiB" then 1024 * 1024 else 1024
  }

  lemma SpelledAgrees(t: string, digits: string, spaces: string, unit: string, spelled: string)
    requires Shape(t, digits, spaces, unit) && Multiplier(unit).Some? && ParseU64(digits).Some?
    requires spelled in {"GiB", "MiB", "KiB"} && EndsWith(t, spelled)
    ensures Multiplier(unit) == Some(SpelledMultiplier(spelled))
    ensures |t| >= 3 && Scaled(t, 3, SpelledMultiplier(spelled)) == Some(ParseU64(digits).value * SpelledMultiplier(spelled))
  {
    hide ParseU64, Trim, Multiplier, Shape;
    SpelledUnit(t, digits, spaces, unit, spelled);
    CutUnit(t, digits, spaces, unit);
    SpelledMultiplies(spelled);
  }

  lemma SpelledMultiplies(spelled: string)
    requires spelled in {"GiB", "MiB", "KiB"}
    ensures Multiplier(spelled) == Some(SpelledMultiplier(spelled))
  {
    assert Lower("GiB") == "gib" && Lower("MiB") == "mib" && Lower("KiB") == "kib";
  }

  lemma BytesAgree(t: string, digits: string, spaces: string, unit: string)
    requires Shape(t, digits, spaces, unit) && Multiplier(unit).Some? && ParseU64(digits).Some?
    requires EndsWith(t, "B") && Scaled(t, 1, 1).Some?
    ensures Multiplier(unit) == Some(1) && Scaled(t, 1, 1) == ParseU64(digits)
  {
    hide ParseU64, Trim, Multiplier;
    LastCharacter(t, digits, spaces, unit);
    assert t[|t| - 1] == 'B';
    UnitEndingInB(unit);
    CutUnit(t, digits, spaces, unit);
    if |unit| > 1 {
      OddlySpelledUnit(t, digits, spaces, unit);
    }
  }

  lemma AgreeByShape(t: string, digits: string, spaces: string, unit: string, byteSize: Option<nat>)
    requires Shape(t, digits, spaces, unit) && Multiplier(unit).Some? && ParseU64(digits).Some?
    requires byteSize.Some? && byteSize ==
               (if EndsWith(t, "GiB") then Scaled(t, 3, 1024 * 1024 * 1024)
                else if EndsWith(t, "MiB") then Scaled(t, 3, 1024 * 1024)
                else if EndsWith(t, "KiB") then Scaled(t, 3, 1024)
                else if EndsWith(t, "B") then Scaled(t, 1, 1)
                else ParseU64(t))
    ensures byteSize.value == ParseU64(digits).value * Multiplier(unit).value
  {
    hide ParseU64, EndsWith, Shape, Multiplier, Scaled;
    if EndsWith(t, "GiB") {
      SpelledAgrees(t, digits, spaces, unit, "GiB");
    } else if EndsWith(t, "MiB") {
      SpelledAgrees(t, digits, spaces, unit, "MiB");
    } else if EndsWith(t, "KiB") {
      SpelledAgrees(t, digits, spaces, unit, "KiB");
    } else if EndsWith(t, "B") {
      BytesAgree(t, digits, spaces, unit);
    } else {
      PlainNumber(t, digits, spaces, unit);
      NoUnit();
    }
  }

  lemma NoUnit()
    ensures Multiplier([]) == Some(1)
  {
  }

  lemma PlainNumber(t: string, digits: string, spaces: string, unit: string)
    requires Shape(t, digits, spaces, unit) && ParseU64(t).Some?
    ensures unit == [] && t == digits
  {
    assert t[0] == digits[0] && IsDigit(t[0]);
    UnitFollows(t, digits, spaces, unit);
  }

  lemma UnitFollows(t: string, digits: string, spaces: string, unit: string)
    requires Shape(t, digits, spaces, unit)
    ensures unit != [] ==> t[|digits| + |spaces|] == unit[0]
  {
  }

  // ---------------------------------------------------------------------------
  // The unchecked multiplication
  // ---------------------------------------------------------------------------

  lemma WrapOnce(n: nat)
    ensures TimesKib(n, 1) == n * 1024 % (U64_MAX + 1)
  {
  }

  lemma WrapAgain(n: nat, m: nat)
    ensures n % (U64_MAX + 1) * m % (U64_MAX + 1) == n * m % (U64_MAX + 1)
  {
    var size, q := U64_MAX + 1, n / (U64_MAX + 1);
    var r := n % size;
    assert n == q * size + r;
    assert n * m == (q * m) * size + r * m;
    RemainderOfShifted(r * m, q * m);
  }

  lemma {:induction false} RemainderOfShifted(r: nat, q: nat)
    ensures (q * (U64_MAX + 1) + r) % (U64_MAX + 1) == r % (U64_MAX + 1)
    decreases q
  {
    if q > 0 {
      RemainderOfShifted(r, q - 1);
    }
  }

  /** Wrapping at each multiplication is wrapping the product. */
  lemma {:induction false} TimesKibWraps(n: nat, times: nat)
    requires times > 0
    ensures TimesKib(n, times) == n * Power(times) % (U64_MAX + 1)
    decreases times
  {
    hide Power, TimesKib;
    TimesKibOnce(n, times);
    if times == 1 {
      WrapOnce(n);
    } else {
      TimesKibWraps(n * 1024 % (U64_MAX + 1), times - 1);
      WrapAgain(n * 1024, Power(times - 1));
      Regroup(n, 1024, Power(times - 1));
    }
  }

  lemma TimesKibOnce(n: nat, times: nat)
    requires times > 0
    ensures TimesKib(n, times) == TimesKib(n * 1024 % (U64_MAX + 1), times - 1)
    ensures Power(times) == 1024 * Power(times - 1) && Power(1) == 1024
  {
  }

  lemma Regroup(x: nat, y: nat, z: nat)
    ensures x * y * z == x * (y * z)
  {
  }

  /** What the manifest's parser reads is the number written, modulo 2^64. */
  lemma ByteSizeWraps(s: string)
    ensures ParseByteSize(s) == match SizeWritten(s) case None => None case Some(n) => Some(n % 0x1_0000_0000_0000_0000)
  {
    hide Trim, TimesKib, Value, DigitsEnd;
    var t := Trim(s);
    forall n: nat, times | 1 <= times <= 3
      ensures TimesKib(n, times) == n * Power(times) % (U64_MAX + 1)
    {
      TimesKibWraps(n, times);
    }
    assert Power(1) == 1024 && Power(2) == 1024 * 1024 && Power(3) == 1024 * 1024 * 1024;
  }

  ghost predicate Overflows(s: string) {
    SizeWritten(s).Some? && SizeWritten(s).value > 0xFFFF_FFFF_FFFF_FFFF
  }

  /** The texts on which its multiplication overflows: a spelled unit, after a number that `u64` holds but not
      the product. */
  lemma OverflowsExactly(s: string)
    ensures Overflows(s) <==>
            exists spelled :: && spelled in {"GiB", "MiB", "KiB"} && EndsWith(Trim(s), spelled)
                              && var n := ParseU64(Trim(Trim(s)[..|Trim(s)| - 3]));
                                 n.Some? && n.value > 0xFFFF_FFFF_FFFF_FFFF / SpelledMultiplier(spelled)
  {
    hide Trim, SizeWritten, EndsWith, ParseU64;
    var t := Trim(s);
    forall spelled | spelled in {"GiB", "MiB", "KiB"} && EndsWith(t, spelled)
      ensures |t| >= 3 && SizeWritten(s) == Scaled(t, 3, SpelledMultiplier(spelled))
    {
      EndsInLetters(t, spelled);
      SpelledIsScaled(s, spelled);
    }
    if forall spelled :: spelled in {"GiB", "MiB", "KiB"} ==> !EndsWith(t, spelled) {
      UnspelledFits(s);
    }
  }

  lemma UnspelledFits(s: string)
    requires forall spelled :: spelled in {"GiB", "MiB", "KiB"} ==> !EndsWith(Trim(s), spelled)
    ensures !Overflows(s)
  {
    hide Trim;
  }

  /** Wherever both parsers accept a text they read the same number, and a text that overflows in one is
      refused by the other. */
  lemma ParsersAgree(s: string)
    ensures ParseMemorySize(s).Some? && ParseByteSize(s).Some? ==> ParseMemorySize(s) == ParseByteSize(s)
    ensures Overflows(s) ==> ParseByteSize(s).Some? && ParseMemorySize(s).None?
  {
    hide ParseU64, Multiplier, Trim, EndsWith, Scaled, Shape, ParseMemorySize, ParseByteSize;
    ByteSizeWraps(s);
    if ParseMemorySize(s).Some? && SizeWritten(s).Some? {
      var digits, spaces, unit := AcceptedSizeHasShape(s);
      AgreeByShape(Trim(s), digits, spaces, unit, SizeWritten(s));
      MemorySizeFits(s);
    }
  }

  lemma MemorySizeFits(s: string)
    ensures ParseMemorySize(s).Some? ==> ParseMemorySize(s).value <= U64_MAX
  {
  }

  lemma SpelledIsScaled(s: string, spelled: string)
    requires spelled in {"GiB", "MiB", "KiB"} && EndsWith(Trim(s), spelled)
    ensures SizeWritten(s) == Scaled(Trim(s), 3, SpelledMultiplier(spelled))
  {
    hide Trim, Scaled;
    var end := Trim(s)[|Trim(s)| - 3..];
    assert end[0] == spelled[0];
  }

  lemma PrintedByteSize(n: nat, spelled: string)
    requires spelled in {"GiB", "MiB", "KiB"} && n <= U64_MAX
    ensures SizeWritten(Decimal(n) + spelled) == Some(n * SpelledMultiplier(spelled))
  {
    hide IsSpace, IsDigit, ParseU64, Trim, Decimal, SizeWritten, Value;
    var digits := Decimal(n);
    var t := digits + spelled;
    PrintedTrims(digits, spelled);
    assert t[..|t| - 3] == digits && t[|t| - 3..] == spelled;
    SpelledIsScaled(t, spelled);
    ValueOfDecimal(n);
    NumberParses(digits);
  }

  /** Bytes, spelled or not, are read as they are. */
  lemma PrintedBytes(n: nat)
    requires n <= U64_MAX
    ensures ParseByteSize(Decimal(n)) == Some(n) && ParseByteSize(Decimal(n) + "B") == Some(n)
  {
    hide IsSpace, ParseU64, Trim, Decimal, Value, Kibs;
    var digits := Decimal(n);
    var t := digits + "B";
    DigitIsNoSpace(digits[0]);
    DigitIsNoSpace(digits[|digits| - 1]);
    LettersAreNoSpaces();
    TrimOver([], t, []);
    TrimOver([], digits, []);
    assert [] + t + [] == t && [] + digits + [] == digits;
    ValueOfDecimal(n);
    NumberParses(digits);
    assert t[..|t| - 1] == digits && t[|t| - 1..] == "B";
    NoLetters(digits);
    NoUnitSpelled(digits, t);
  }

  lemma NoLetters(digits: string)
    requires digits != [] && forall i :: 0 <= i < |digits| ==> IsDigit(digits[i])
    ensures !EndsWith(digits, "GiB") && !EndsWith(digits, "MiB") && !EndsWith(digits, "KiB") && !EndsWith(digits, "B")
  {
    var last := digits[|digits| - 1];
    assert forall part: string :: EndsWith(digits, part) && part != [] ==> part[|part| - 1] == last by {
      forall part: string | EndsWith(digits, part) && part != []
        ensures part[|part| - 1] == last
      {
        assert digits[|digits| - |part|..][|part| - 1] == last;
      }
    }
  }

  lemma NoUnitSpelled(digits: string, t: string)
    requires digits != [] && (forall i :: 0 <= i < |digits| ==> IsDigit(digits[i])) && t == digits + "B"
    ensures !EndsWith(t, "GiB") && !EndsWith(t, "MiB") && !EndsWith(t, "KiB") && EndsWith(t, "B")
  {
    if |t| >= 3 {
      assert t[|t| - 2] == digits[|digits| - 1];
      assert t[|t| - 3..][1] == t[|t| - 2];
    }
    assert t[|t| - 1..] == "B";
  }

  lemma PrintedTrims(digits: string, spelled: string)
    requires spelled in {"GiB", "MiB", "KiB"} && digits != [] && forall i :: 0 <= i < |digits| ==> IsDigit(digits[i])
    ensures Trim(digits + spelled) == digits + spelled && Trim(digits) == digits
  {
    hide IsSpace, IsDigit, Trim;
    var t := digits + spelled;
    DigitIsNoSpace(digits[0]);
    DigitIsNoSpace(digits[|digits| - 1]);
    LettersAreNoSpaces();
    assert t[|t| - 1] == spelled[2];
    TrimOver([], t, []);
    TrimOver([], digits, []);
    assert [] + t + [] == t && [] + digits + [] == digits;
  }

  lemma LettersAreNoSpaces()
    ensures !IsSpace('G') && !IsSpace('M') && !IsSpace('K') && !IsSpace('B')
  {
  }

  /** Sixteen exbibytes: the limit the manifest's parser reads is zero. */
  lemma SixteenExbibytesIsZero()
    ensures var s := Decimal(17179869184) + "GiB"; ParseByteSize(s) == Some(0) && ParseMemorySize(s).None?
  {
    hide ParseByteSize, ParseMemorySize, SizeWritten, Decimal;
    var s := Decimal(17179869184) + "GiB";
    PrintedByteSize(17179869184, "GiB");
    ByteSizeWraps(s);
    ParsersAgree(s);
  }
}
