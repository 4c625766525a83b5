/** Reading the offending key and the valid keys back out of serde's unknown-field message
    (`parse_unknown_field` in `torvyn-config/src/error.rs`). */
module UnknownField {
  import opened Wrappers

  const MARKER := "unknown field `"

  // ---------------------------------------------------------------------------
  // The string functions it is made of
  // ---------------------------------------------------------------------------

  /** Unicode `White_Space`, as `trim_start` sees it. */
  predicate IsSpace(c: char) {
    var n := c as int;
    || 0x9 <= n <= 0xD || n == 0x20 || n == 0x85 || n == 0xA0 || n == 0x1680
    || 0x2000 <= n <= 0x200A || n == 0x2028 || n == 0x2029 || n == 0x202F || n == 0x205F || n == 0x3000
  }

  function TrimStart(s: string): string {
    if s != [] && IsSpace(s[0]) then TrimStart(s[1..]) else s
  }

  predicate StartsWith(s: string, prefix: string) {
    |prefix| <= |s| && s[..|prefix|] == prefix
  }

  /** The pieces between the occurrences of `c`; one more piece than occurrences. */
  function Split(s: string, c: char): (pieces: seq<string>)
    ensures pieces != []
  {
    if s == [] then [[]]
    else if s[0] == c then [[]] + Split(s[1..], c)
    else var rest := Split(s[1..], c); [[s[0]] + rest[0]] + rest[1..]
  }

  function WithoutReturn(line: string): string {
    if line != [] && line[|line| - 1] == '\r' then line[..|line| - 1] else line
  }

  /** `str::lines`: a line feed, or a carriage return and a line feed, ends a line; the last one may be
      missing. */
  function Lines(s: string): seq<string> {
    var pieces := Split(s, '\n');
    Ended(pieces[..|pieces| - 1]) + if pieces[|pieces| - 1] == [] then [] else [pieces[|pieces| - 1]]
  }

  function Ended(pieces: seq<string>): (lines: seq<string>)
    ensures |lines| == |pieces|
  {
    if pieces == [] then [] else [WithoutReturn(pieces[0])] + Ended(pieces[1..])
  }

  /** `split_once`: before and after the first occurrence. */
  function SplitOnce(s: string, pattern: string): Option<(string, string)> {
    if StartsWith(s, pattern) then Some(([], s[|pattern|..]))
    else if s == [] then None
    else match SplitOnce(s[1..], pattern)
      case None => None
      case Some((before, after)) => Some(([s[0]] + before, after))
  }

  /** `skip(1).step_by(2)`: the pieces at odd positions. */
  function EverySecond(pieces: seq<string>): seq<string> {
    if |pieces| < 2 then [] else [pieces[1]] + EverySecond(pieces[2..])
  }

  predicate IsMarked(line: string) {
    StartsWith(TrimStart(line), MARKER)
  }

  function FirstMarked(lines: seq<string>): Option<string> {
    if lines == [] then None else if IsMarked(lines[0]) then Some(lines[0]) else FirstMarked(lines[1..])
  }

  function ParseUnknownField(rendered: string): Option<(string, seq<string>)> {
    match FirstMarked(Lines(rendered))
    case None => None
    case Some(line) =>
      match SplitOnce(line, MARKER)
      case None => None
      case Some((_, afterMarker)) =>
        match SplitOnce(afterMarker, "`")
        case None => None
        case Some((found, rest)) => Some((found, EverySecond(Split(rest, '`'))))
  }

  // ---------------------------------------------------------------------------
  // The message
  // ---------------------------------------------------------------------------

  function Quoted(keys: seq<string>, separator: string): string
    requires keys != []
  {
    "`" + keys[0] + "`" + if |keys| == 1 then "" else separator + Quoted(keys[1..], separator)
  }

  /** What serde says a table accepts: nothing, one key, two, or a list. */
  function Expectation(keys: seq<string>): string {
    if keys == [] then ", there are no fields"
    else if |keys| == 1 then ", expected " + Quoted(keys, "")
    else if |keys| == 2 then ", expected " + Quoted(keys, " or ")
    else ", expected one of " + Quoted(keys, ", ")
  }

  function Message(found: string, keys: seq<string>): string {
    MARKER + found + "`" + Expectation(keys)
  }

  /** Any lines before it, each ended by a line feed. */
  function Preamble(lines: seq<string>): string {
    if lines == [] then "" else lines[0] + "\n" + Preamble(lines[1..])
  }

  // ---------------------------------------------------------------------------
  // Splitting what was joined
  // ---------------------------------------------------------------------------

  lemma {:induction false} SplitFree(s: string, c: char)
    requires c !in s
    ensures Split(s, c) == [s]
  {
    if s != [] {
      SplitFree(s[1..], c);
      assert s == [s[0]] + s[1..];
    }
  }

  lemma {:induction false} SplitAt(s: string, c: char, rest: string)
    requires c !in s
    ensures Split(s + [c] + rest, c) == [s] + Split(rest, c)
  {
    if s == [] {
      assert (s + [c] + rest)[1..] == rest;
    } else {
      assert (s + [c] + rest)[1..] == s[1..] + [c] + rest;
      SplitAt(s[1..], c, rest);
      assert s == [s[0]] + s[1..];
    }
  }

  lemma {:induction false} PiecesAreFree(s: string, c: char)
    ensures forall piece :: piece in Split(s, c) ==> c !in piece
  {
    if s != [] {
      PiecesAreFree(s[1..], c);
    }
  }

  lemma {:induction false} EverySecondIsAmong(pieces: seq<string>)
    ensures forall piece :: piece in EverySecond(pieces) ==> piece in pieces
  {
    if |pieces| >= 2 {
      EverySecondIsAmong(pieces[2..]);
    }
  }

  lemma SplitTwice(lead: string, key: string, tail: string)
    requires '`' !in lead && '`' !in key
    ensures Split(lead + "`" + key + "`" + tail, '`') == [lead, key] + Split(tail, '`')
  {
    hide Split;
    SplitAt(lead, '`', key + "`" + tail);
    SplitAt(key, '`', tail);
    assert lead + "`" + key + "`" + tail == lead + ['`'] + (key + "`" + tail);
    assert key + "`" + tail == key + ['`'] + tail;
    assert [lead] + ([key] + Split(tail, '`')) == [lead, key] + Split(tail, '`');
  }

  lemma EverySecondOfPair(a: string, b: string, rest: seq<string>)
    ensures EverySecond([a, b] + rest) == [b] + EverySecond(rest)
  {
    assert ([a, b] + rest)[2..] == rest;
  }

  function QuotedTail(keys: seq<string>, separator: string): string
    requires keys != []
  {
    if |keys| == 1 then "" else separator + Quoted(keys[1..], separator)
  }

  lemma QuotedHead(keys: seq<string>, separator: string, lead: string)
    requires keys != []
    ensures lead + Quoted(keys, separator) == lead + "`" + keys[0] + "`" + QuotedTail(keys, separator)
  {
  }

  /** Splitting a quoted list at its quotes gives the keys at the odd positions. */
  lemma {:induction false} SplitQuoted(keys: seq<string>, separator: string, lead: string)
    requires keys != [] && '`' !in separator && '`' !in lead
    requires forall k :: k in keys ==> '`' !in k
    ensures EverySecond(Split(lead + Quoted(keys, separator), '`')) == keys
  {
    hide Quoted, Split;
    var tail := QuotedTail(keys, separator);
    QuotedHead(keys, separator, lead);
    SplitTwice(lead, keys[0], tail);
    EverySecondOfPair(lead, keys[0], Split(tail, '`'));
    if |keys| == 1 {
      SplitFree(tail, '`');
    } else {
      SplitQuoted(keys[1..], separator, separator);
    }
    assert keys == [keys[0]] + keys[1..];
  }

  predicate Free(found: string, keys: seq<string>, c: char) {
    c !in found && forall k :: k in keys ==> c !in k
  }

  lemma SplitExpectation(keys: seq<string>)
    requires forall k :: k in keys ==> '`' !in k
    ensures EverySecond(Split(Expectation(keys), '`')) == keys
  {
    if keys == [] {
      SplitFree(Expectation(keys), '`');
    } else if |keys| == 1 {
      SplitQuoted(keys, "", ", expected ");
    } else if |keys| == 2 {
      SplitQuoted(keys, " or ", ", expected ");
    } else {
      SplitQuoted(keys, ", ", ", expected one of ");
    }
  }

  lemma {:induction false} SplitOnceAt(s: string, rest: string)
    requires '`' !in s
    ensures SplitOnce(s + "`" + rest, "`") == Some((s, rest))
  {
    var whole := s + "`" + rest;
    if s != [] {
      assert whole[1..] == s[1..] + "`" + rest;
      SplitOnceAt(s[1..], rest);
      assert s == [s[0]] + s[1..] && whole[0] == s[0];
    } else {
      assert whole[1..] == rest;
    }
  }

  // ---------------------------------------------------------------------------
  // Finding the line and the marker
  // ---------------------------------------------------------------------------

  lemma {:induction false} LinesAfter(line: string, rest: string)
    requires '\n' !in line
    ensures Lines(line + "\n" + rest) == [WithoutReturn(line)] + Lines(rest)
  {
    hide Split, WithoutReturn;
    var tail := Split(rest, '\n');
    SplitAt(line, '\n', rest);
    assert line + "\n" + rest == line + ['\n'] + rest;
    var pieces := Split(line + "\n" + rest, '\n');
    assert pieces == [line] + tail;
    assert pieces[..|pieces| - 1][0] == line && pieces[..|pieces| - 1][1..] == tail[..|tail| - 1];
  }

  lemma LinesOfOne(line: string)
    requires '\n' !in line && line != []
    ensures Lines(line) == [line]
  {
    SplitFree(line, '\n');
  }

  /** No line before the message looks like it. */
  ghost predicate Unmarked(lines: seq<string>) {
    forall line :: line in lines ==> '\n' !in line && !IsMarked(WithoutReturn(line))
  }

  lemma {:induction false} SkipPreamble(lines: seq<string>, rest: string)
    requires Unmarked(lines)
    ensures FirstMarked(Lines(Preamble(lines) + rest)) == FirstMarked(Lines(rest))
  {
    if lines == [] {
      assert Preamble(lines) + rest == rest;
    } else {
      var tail := Preamble(lines[1..]) + rest;
      assert Preamble(lines) + rest == lines[0] + "\n" + tail;
      LinesAfter(lines[0], tail);
      SkipPreamble(lines[1..], rest);
    }
  }

  lemma {:induction false} TrimIndent(indent: string, s: string)
    requires forall c :: c in indent ==> IsSpace(c)
    requires s != [] && !IsSpace(s[0])
    ensures TrimStart(indent + s) == s
  {
    if indent == [] {
      assert indent + s == s;
    } else {
      assert (indent + s)[1..] == indent[1..] + s;
      TrimIndent(indent[1..], s);
    }
  }

  lemma {:induction false} MarkerAfterIndent(indent: string, after: string)
    requires forall c :: c in indent ==> IsSpace(c)
    ensures SplitOnce(indent + MARKER + after, MARKER) == Some((indent, after))
  {
    var s := indent + MARKER + after;
    if indent == [] {
      assert s[..|MARKER|] == MARKER && s[|MARKER|..] == after;
    } else {
      assert s[0] == indent[0] && MARKER[0] == 'u' && !IsSpace('u');
      assert |MARKER| <= |s| ==> s[..|MARKER|][0] == s[0];
      assert s[1..] == indent[1..] + MARKER + after;
      MarkerAfterIndent(indent[1..], after);
      assert indent == [indent[0]] + indent[1..];
    }
  }

  // ---------------------------------------------------------------------------
  // The round trip
  // ---------------------------------------------------------------------------

  /** How serde's error reaches the parser: below other lines, possibly indented, with or without a final
      line feed. */
  function Rendered(before: seq<string>, indent: string, found: string, keys: seq<string>, after: string): string {
    Preamble(before) + indent + Message(found, keys) + after
  }

  lemma ParseLine(indent: string, found: string, keys: seq<string>)
    requires (forall c :: c in indent ==> IsSpace(c)) && Free(found, keys, '`')
    ensures SplitOnce(indent + Message(found, keys), MARKER) == Some((indent, found + "`" + Expectation(keys)))
    ensures SplitOnce(found + "`" + Expectation(keys), "`") == Some((found, Expectation(keys)))
    ensures EverySecond(Split(Expectation(keys), '`')) == keys
  {
    assert indent + Message(found, keys) == indent + MARKER + (found + "`" + Expectation(keys));
    MarkerAfterIndent(indent, found + "`" + Expectation(keys));
    SplitOnceAt(found, Expectation(keys));
    SplitExpectation(keys);
  }

  lemma {:induction false} QuotedHasNo(keys: seq<string>, separator: string, c: char)
    requires keys != [] && c != '`' && c !in separator && forall k :: k in keys ==> c !in k
    ensures c !in Quoted(keys, separator)
  {
    if |keys| > 1 {
      QuotedHasNo(keys[1..], separator, c);
    }
  }

  lemma MessageIsOneLine(indent: string, found: string, keys: seq<string>)
    requires Free(found, keys, '\n') && '\n' !in indent
    ensures '\n' !in indent + Message(found, keys)
  {
    hide Expectation;
    ExpectationIsOneLine(keys);
  }

  lemma ExpectationIsOneLine(keys: seq<string>)
    requires forall k :: k in keys ==> '\n' !in k
    ensures '\n' !in Expectation(keys)
  {
    hide Quoted;
    if |keys| == 1 {
      QuotedHasNo(keys, "", '\n');
    } else if |keys| == 2 {
      QuotedHasNo(keys, " or ", '\n');
    } else if keys != [] {
      QuotedHasNo(keys, ", ", '\n');
    }
  }

  lemma {:induction false} QuotedEnds(keys: seq<string>, separator: string)
    requires keys != []
    ensures var q := Quoted(keys, separator); q != [] && q[|q| - 1] == '`'
  {
    if |keys| > 1 {
      QuotedEnds(keys[1..], separator);
    }
  }

  lemma MessageEnds(found: string, keys: seq<string>)
    ensures var m := Message(found, keys); m != [] && m[|m| - 1] != '\r'
  {
    if |keys| == 1 {
      QuotedEnds(keys, "");
    } else if |keys| == 2 {
      QuotedEnds(keys, " or ");
    } else if keys != [] {
      QuotedEnds(keys, ", ");
    }
  }

  lemma MessageIsMarked(indent: string, found: string, keys: seq<string>)
    requires forall c :: c in indent ==> IsSpace(c)
    ensures IsMarked(indent + Message(found, keys))
  {
    TrimIndent(indent, Message(found, keys));
    assert Message(found, keys)[..|MARKER|] == MARKER;
  }

  lemma FindsMessage(before: seq<string>, indent: string, found: string, keys: seq<string>, after: string)
    requires Unmarked(before) && (forall c :: c in indent ==> IsSpace(c) && c != '\n')
    requires (after == [] || after[0] == '\n') && Free(found, keys, '\n')
    ensures FirstMarked(Lines(Rendered(before, indent, found, keys, after))) == Some(indent + Message(found, keys))
  {
    hide Message, Lines, IsMarked;
    var line := indent + Message(found, keys);
    MessageIsOneLine(indent, found, keys);
    MessageEnds(found, keys);
    MessageIsMarked(indent, found, keys);
    assert Rendered(before, indent, found, keys, after) == Preamble(before) + (line + after);
    SkipPreamble(before, line + after);
    if after == [] {
      LinesOfOne(line);
      assert line + after == line;
    } else {
      assert line + after == line + "\n" + after[1..];
      LinesAfter(line, after[1..]);
    }
  }

  lemma {:induction false} SplitOnceParts(s: string, pattern: string)
    requires SplitOnce(s, pattern).Some?
    ensures SplitOnce(s, pattern).value.0 + pattern + SplitOnce(s, pattern).value.1 == s
  {
    hide StartsWith;
    if StartsWith(s, pattern) {
      PrefixAndRest(s, pattern);
      assert [] + pattern == pattern;
    } else {
      SplitOnceParts(s[1..], pattern);
      var (before, after) := SplitOnce(s[1..], pattern).value;
      assert [s[0]] + before + pattern + after == [s[0]] + (before + pattern + after) == s;
    }
  }

  lemma PrefixAndRest(s: string, prefix: string)
    requires StartsWith(s, prefix)
    ensures |prefix| <= |s| && prefix + s[|prefix|..] == s
  {
  }

  lemma {:induction false} BeforeQuoteIsFree(s: string)
    ensures SplitOnce(s, "`").Some? ==> '`' !in SplitOnce(s, "`").value.0
  {
    if s != [] && s[0] != '`' {
      BeforeQuoteIsFree(s[1..]);
    } else if s != [] {
      assert s[..1] == "`";
    }
  }

  lemma {:induction false} PiecesAreParts(s: string, c: char, d: char)
    requires d !in s
    ensures forall piece :: piece in Split(s, c) ==> d !in piece
  {
    if s != [] {
      PiecesAreParts(s[1..], c, d);
    }
  }

  lemma {:induction false} EndedIsFree(pieces: seq<string>, c: char)
    requires forall piece :: piece in pieces ==> c !in piece
    ensures forall line :: line in Ended(pieces) ==> c !in line
  {
    if pieces != [] {
      EndedIsFree(pieces[1..], c);
      assert c !in pieces[0];
      assert forall d :: d in WithoutReturn(pieces[0]) ==> d in pieces[0];
    }
  }

  lemma LinesAreFree(s: string)
    ensures forall line :: line in Lines(s) ==> '\n' !in line
  {
    var pieces := Split(s, '\n');
    PiecesAreFree(s, '\n');
    EndedIsFree(pieces[..|pieces| - 1], '\n');
  }

  lemma {:induction false} FirstMarkedIsALine(lines: seq<string>)
    ensures FirstMarked(lines).Some? ==> FirstMarked(lines).value in lines
  {
    if lines != [] {
      FirstMarkedIsALine(lines[1..]);
    }
  }

  /** Whatever the text, no key read out of it has a quote or a line feed in it. */
  lemma ParsedIsFree(rendered: string)
    requires ParseUnknownField(rendered).Some?
    ensures var (found, keys) := ParseUnknownField(rendered).value; Free(found, keys, '`') && Free(found, keys, '\n')
  {
    hide Split, SplitOnce, Lines, IsMarked;
    var line := FirstMarked(Lines(rendered)).value;
    FirstMarkedIsALine(Lines(rendered));
    LinesAreFree(rendered);
    var afterMarker := SplitOnce(line, MARKER).value.1;
    SplitOnceParts(line, MARKER);
    var (found, rest) := SplitOnce(afterMarker, "`").value;
    SplitOnceParts(afterMarker, "`");
    BeforeQuoteIsFree(afterMarker);
    PiecesAreFree(rest, '`');
    PiecesAreParts(rest, '`', '\n');
    EverySecondIsAmong(Split(rest, '`'));
  }

  /** The parser gives back exactly the key and the keys that were rendered, in order, in every shape of the
      message, when none of them has a quote or a line feed in it — and only then. */
  lemma RoundTrip(before: seq<string>, indent: string, found: string, keys: seq<string>, after: string)
    requires Unmarked(before) && (forall c :: c in indent ==> IsSpace(c) && c != '\n') && (after == [] || after[0] == '\n')
    ensures ParseUnknownField(Rendered(before, indent, found, keys, after)) == Some((found, keys)) <==>
            Free(found, keys, '`') && Free(found, keys, '\n')
  {
    hide Message, Lines, IsMarked, Split, SplitOnce, Unmarked, Rendered, Expectation;
    var rendered := Rendered(before, indent, found, keys, after);
    if Free(found, keys, '`') && Free(found, keys, '\n') {
      FindsMessage(before, indent, found, keys, after);
      ParseLine(indent, found, keys);
    } else if ParseUnknownField(rendered).Some? {
      ParsedIsFree(rendered);
    }
  }

  /** A text without a line that starts like the message gives nothing. */
  lemma NoMessageNoAnswer(rendered: string)
    ensures (forall line :: line in Lines(rendered) ==> !StartsWith(TrimStart(line), MARKER)) ==> ParseUnknownField(rendered).None?
  {
    hide Lines, StartsWith, TrimStart;
    FirstMarkedIsALine(Lines(rendered));
    FirstMarkedIsMarked(Lines(rendered));
  }

  lemma {:induction false} FirstMarkedIsMarked(lines: seq<string>)
    ensures FirstMarked(lines).Some? ==> IsMarked(FirstMarked(lines).value)
  {
    if lines != [] {
      FirstMarkedIsMarked(lines[1..]);
    }
  }

  /** A key with a quote in it is not recovered. */
  lemma QuoteInKeyIsNotRecovered()
    ensures ParseUnknownField(Rendered([], "", "a`b", ["c"], "")) != Some(("a`b", ["c"]))
  {
    var found := "a`b";
    assert found[1] == '`';
    RoundTrip([], "", found, ["c"], "");
  }
}
