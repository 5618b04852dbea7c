// Calendar invites: escaping, folding, and reading an invite back.
module Ics {
  import opened Wrappers
  import opened Strings

  // ---------------------------------------------------------------------------
  // Escaping
  // ---------------------------------------------------------------------------

  /** Every CRLF and every lone LF replaced by a backslash and an n. */
  function EscapeBreaks(s: string): string
    decreases |s|
  {
    if "\r\n" <= s then "\\n" + EscapeBreaks(s[2..])
    else if "\n" <= s then "\\n" + EscapeBreaks(s[1..])
    else if s == "" then ""
    else [s[0]] + EscapeBreaks(s[1..])
  }

  /** The four replacements, one after the other. */
  function EscapeText(value: string): string {
    EscapeBreaks(Replace(Replace(Replace(value, "\\", "\\\\"), ";", "\\;"), ",", "\\,"))
  }

  /** `value` with every CRLF made LF. */
  function Normalise(value: string): string {
    Replace(value, CRLF, "\n")
  }

  lemma NoEarlierBreak(a: string, b: string)
    requires a != "" && !(CRLF <= a)
    ensures !(CRLF <= a + CRLF + b)
  {
    var s := a + CRLF + b;
    assert |a| == 1 ==> s[1] == CRLF[0];
    assert |a| >= 2 ==> s[..2] == a[..2];
  }

  lemma {:induction false} NormaliseKeeps(a: string)
    requires '\r' !in a
    ensures Normalise(a) == a
    decreases |a|
  {
    if a != "" {
      assert a[0] in a && forall c :: c in a[1..] ==> c in a;
      NormaliseKeeps(a[1..]);
      assert a == [a[0]] + a[1..];
    }
  }

  lemma {:induction false} NormaliseBreaks(a: string, b: string)
    ensures Normalise(a + CRLF + b) == Normalise(a) + "\n" + Normalise(b)
    decreases |a|
  {
    hide Replace;
    var s := a + CRLF + b;
    NormaliseStep(a);
    NormaliseStep(s);
    if a == "" {
      assert s == CRLF + b && s[2..] == b;
    } else if CRLF <= a {
      NormaliseBreaks(a[2..], b);
      assert CRLF <= s && s[2..] == a[2..] + CRLF + b;
    } else {
      NormaliseBreaks(a[1..], b);
      assert s[1..] == a[1..] + CRLF + b && s[0] == a[0];
      NoEarlierBreak(a, b);
    }
  }

  lemma NormaliseStep(s: string)
    ensures Normalise(s) == if CRLF <= s then "\n" + Normalise(s[2..]) else if s == "" then "" else [s[0]] + Normalise(s[1..])
  {
  }

  /** Only the breaks change: text without CR is kept, and each CRLF becomes LF in its place. */
  lemma NormaliseMeans(a: string, b: string)
    ensures '\r' !in a ==> Normalise(a) == a
    ensures Normalise(a + CRLF + b) == Normalise(a) + "\n" + Normalise(b)
  {
    hide Normalise;
    if '\r' !in a { NormaliseKeeps(a); }
    NormaliseBreaks(a, b);
  }

  function EscapeChar(c: char): string {
    if c in "\\;," then ['\\', c] else if c == '\n' then "\\n" else [c]
  }

  function EscapeEach(s: string): string {
    if s == "" then "" else EscapeChar(s[0]) + EscapeEach(s[1..])
  }

  /** The text that an escaped value stands for; None at a bare separator, a line feed or an unknown escape. */
  function ReadText(s: string): Option<string>
    decreases |s|
  {
    if s == "" then Some("")
    else if s[0] == '\\' then
      if |s| == 1 || s[1] !in "\\;,nN" then None
      else Prepend(if s[1] in "nN" then '\n' else s[1], ReadText(s[2..]))
    else if s[0] in ";,\n" then None
    else Prepend(s[0], ReadText(s[1..]))
  }

  function Prepend(c: char, rest: Option<string>): Option<string> {
    if rest.Some? then Some([c] + rest.value) else None
  }

  function EscapeSeparators(s: string): string {
    Replace(Replace(Replace(s, "\\", "\\\\"), ";", "\\;"), ",", "\\,")
  }

  lemma ReplaceFirst(s: string, c: char, v: string)
    requires s != ""
    ensures Replace(s, [c], v) == (if s[0] == c then v else [s[0]]) + Replace(s[1..], [c], v)
  {
    assert [c] <= s <==> s[0] == c;
  }

  lemma {:induction false} ReplacePasses(x: string, rest: string, c: char, v: string)
    requires c !in x
    ensures Replace(x + rest, [c], v) == x + Replace(rest, [c], v)
    decreases |x|
  {
    hide Replace;
    if x == "" {
      assert x + rest == rest;
    } else {
      var s := x + rest;
      assert s[1..] == x[1..] + rest && s[0] == x[0] && x[0] in x;
      ReplaceFirst(s, c, v);
      ReplacePasses(x[1..], rest, c, v);
      assert x == [x[0]] + x[1..];
    }
  }

  lemma SeparatorsFirst(s: string)
    requires s != ""
    ensures EscapeSeparators(s) == (if s[0] in "\\;," then ['\\', s[0]] else [s[0]]) + EscapeSeparators(s[1..])
  {
    var rest := s[1..];
    var a, b := Replace(rest, "\\", "\\\\"), Replace(Replace(rest, "\\", "\\\\"), ";", "\\;");
    ReplaceFirst(s, '\\', "\\\\");
    if s[0] == '\\' {
      ReplacePasses("\\\\", a, ';', "\\;");
      ReplacePasses("\\\\", b, ',', "\\,");
    } else {
      ReplaceFirst([s[0]] + a, ';', "\\;");
      assert ([s[0]] + a)[1..] == a;
      if s[0] == ';' {
        ReplacePasses("\\;", b, ',', "\\,");
      } else {
        ReplaceFirst([s[0]] + b, ',', "\\,");
        assert ([s[0]] + b)[1..] == b;
      }
    }
  }

  /** The four replacements are one escape of each character, after CRLF has become LF. */
  lemma {:induction false} EscapeIsOnePass(value: string)
    ensures EscapeText(value) == EscapeEach(Normalise(value))
    decreases |value|
  {
    hide Replace, EscapeSeparators, Normalise;
    EscapeOneStep(value);
    if "\r\n" <= value {
      EscapeIsOnePass(value[2..]);
    } else if value != "" {
      EscapeIsOnePass(value[1..]);
    }
  }

  lemma EscapeOneStep(value: string)
    ensures value == "" ==> EscapeText(value) == EscapeEach(Normalise(value))
    ensures "\r\n" <= value ==>
      && EscapeText(value) == "\\n" + EscapeText(value[2..])
      && EscapeEach(Normalise(value)) == "\\n" + EscapeEach(Normalise(value[2..]))
    ensures value != "" && !("\r\n" <= value) ==>
      && EscapeText(value) == EscapeChar(value[0]) + EscapeText(value[1..])
      && EscapeEach(Normalise(value)) == EscapeChar(value[0]) + EscapeEach(Normalise(value[1..]))
  {
    if value != "" {
      var y := EscapeSeparators(value[1..]);
      SeparatorsFirst(value);
      if "\r\n" <= value {
        SeparatorsFirst(value[1..]);
        var z := EscapeSeparators(value[2..]);
        assert value[1..][1..] == value[2..];
        assert EscapeSeparators(value) == ['\r'] + (['\n'] + z);
        assert "\r\n" <= EscapeSeparators(value) && EscapeSeparators(value)[2..] == z;
        assert ("\n" + Normalise(value[2..]))[1..] == Normalise(value[2..]);
      } else {
        if value[1..] != "" { SeparatorsFirst(value[1..]); }
        assert value[0] == '\r' && value[1..] != "" ==> value[1] != '\n' by {
          assert |value| >= 2 ==> value[..2] == [value[0], value[1]];
        }
        assert value[1..] != "" ==> y[0] == if value[1] in "\\;," then '\\' else value[1];
        assert value[1..] == "" ==> y == "" by { assert Replace("", "\\", "\\\\") == ""; }
        EscapeBreaksFirst(value[0], y);
        assert ([value[0]] + Normalise(value[1..]))[1..] == Normalise(value[1..]);
      }
    }
  }

  lemma EscapeBreaksFirst(c: char, rest: string)
    requires c == '\r' ==> !("\n" <= rest)
    ensures EscapeBreaks((if c in "\\;," then ['\\', c] else [c]) + rest) == EscapeChar(c) + EscapeBreaks(rest)
  {
    var head := if c in "\\;," then ['\\', c] else [c];
    var s := head + rest;
    if c in "\\;," {
      assert s[0] == '\\' && s[1..] == [c] + rest && s[1..][0] == c && s[1..][1..] == rest;
      assert EscapeBreaks(s[1..]) == [c] + EscapeBreaks(rest);
    } else {
      assert s[1..] == rest && s[0] == c;
      assert rest != "" ==> s[1] == rest[0];
    }
  }

  lemma ReadOne(c: char, rest: string)
    ensures ReadText(EscapeChar(c) + rest) == Prepend(c, ReadText(rest))
  {
    var t := EscapeChar(c) + rest;
    assert t[|EscapeChar(c)|..] == rest;
    assert t[0] == EscapeChar(c)[0];
    assert |EscapeChar(c)| == 2 ==> t[1] == EscapeChar(c)[1];
  }

  lemma {:induction false} ReadEscaped(s: string)
    ensures ReadText(EscapeEach(s)) == Some(s)
    ensures '\n' !in EscapeEach(s)
    decreases |s|
  {
    if s != "" {
      ReadEscaped(s[1..]);
      ReadOne(s[0], EscapeEach(s[1..]));
      assert '\n' !in EscapeChar(s[0]) && s == [s[0]] + s[1..];
    }
  }

  /** Reading an escaped value gives it back with every CRLF made LF. */
  lemma EscapeRoundTrip(value: string)
    ensures ReadText(EscapeText(value)) == Some(Normalise(value))
    ensures '\n' !in EscapeText(value)
  {
    hide EscapeText, Normalise, ReadText, EscapeEach;
    EscapeIsOnePass(value);
    ReadEscaped(Normalise(value));
  }

  /** Two values are printed alike exactly when they differ at most in CRLF against LF. */
  lemma EscapeIdentifiesBreaksOnly(a: string, b: string)
    ensures EscapeText(a) == EscapeText(b) <==> Normalise(a) == Normalise(b)
  {
    hide EscapeText, Normalise, ReadText, EscapeEach;
    EscapeIsOnePass(a);
    EscapeIsOnePass(b);
    EscapeRoundTrip(a);
    EscapeRoundTrip(b);
  }

  function SanitizeMailto(value: string): (r: string)
    ensures forall c :: c in r <==> c in value && c !in CRLF
  {
    WithoutMembers(value, CRLF);
    Without(value, CRLF)
  }

  /** Each character is kept or dropped on its own, in its place; a value without CR and LF is kept whole. */
  lemma SanitizeMailtoFilters(a: string, c: char, b: string)
    ensures SanitizeMailto(a + [c] + b) == SanitizeMailto(a) + (if c in CRLF then "" else [c]) + SanitizeMailto(b)
    ensures (forall d :: d in a ==> d !in CRLF) ==> SanitizeMailto(a) == a
  {
    WithoutJoins(a + [c], b, CRLF);
    WithoutJoins(a, [c], CRLF);
    WithoutKeeps([c], CRLF);
    WithoutKeeps(a, CRLF);
  }

  // ---------------------------------------------------------------------------
  // Folding
  // ---------------------------------------------------------------------------

  /** The continuation lines for what is left of a long line. */
  function Continued(rest: string): seq<string>
    decreases |rest|
  {
    if rest == "" then []
    else if |rest| <= 74 then [" " + rest]
    else [" " + rest[..74]] + Continued(rest[74..])
  }

  /** The physical lines of a logical line. */
  function Folded(line: string): (r: seq<string>)
    ensures r != []
  {
    if |line| <= 75 then [line] else [line[..75]] + Continued(line[75..])
  }

  function FoldText(line: string): string {
    Join(Folded(line), CRLF)
  }

  method FoldLine(line: string) returns (text: string)
    ensures text == FoldText(line)
  {
    if |line| <= 75 {
      return line;
    }
    var chunks := [line[..75]];
    var remaining := line[75..];
    while |remaining| > 74
      invariant chunks != []
      invariant chunks + Continued(remaining) == Folded(line)
    {
      assert chunks + ([" " + remaining[..74]] + Continued(remaining[74..])) == (chunks + [" " + remaining[..74]]) + Continued(remaining[74..]);
      chunks := chunks + [" " + remaining[..74]];
      remaining := remaining[74..];
    }
    if remaining != "" {
      chunks := chunks + [" " + remaining];
    }
    assert chunks == Folded(line);
    text := Join(chunks, CRLF);
  }

  /** Unfolding removes every line break that a space follows. */
  function Unfold(text: string): string {
    Replace(text, "\r\n ", "")
  }

  lemma {:induction false} ContinuedFits(rest: string)
    ensures forall i :: 0 <= i < |Continued(rest)| ==> 2 <= |Continued(rest)[i]| <= 75
    ensures forall i :: 0 <= i < |Continued(rest)| - 1 ==> |Continued(rest)[i]| == 75
    ensures rest != "" ==> Continued(rest) != []
    decreases |rest|
  {
    if |rest| > 74 { ContinuedFits(rest[74..]); }
  }

  /** No physical line is longer than 75 units, all but the last are that long, and only a line of at most 75 stays whole. */
  lemma FoldedFits(line: string)
    ensures forall i :: 0 <= i < |Folded(line)| ==> |Folded(line)[i]| <= 75
    ensures forall i :: 0 <= i < |Folded(line)| - 1 ==> |Folded(line)[i]| == 75
    ensures |Folded(line)| == 1 <==> |line| <= 75
  {
    if |line| > 75 { ContinuedFits(line[75..]); }
  }

  lemma OneLineParts(x: string, y: string)
    requires OneLine(x + y)
    ensures OneLine(x) && OneLine(y) && (x != "" && x[|x| - 1] == '\r' ==> !("\n" <= y))
  {
    ClearJoins(x, y, "");
    assert y + "" == y;
    ClearCut(x, y);
    if x != "" && x[|x| - 1] == '\r' {
      ClearJoins(x[..|x| - 1], [x[|x| - 1]], y);
      assert x == x[..|x| - 1] + [x[|x| - 1]];
      assert !(CRLF <= [x[|x| - 1]] + y);
      BreakAcross(x[|x| - 1], y);
    }
  }

  lemma BreakAcross(c: char, y: string)
    ensures CRLF <= [c] + y <==> c == '\r' && "\n" <= y
  {
    var s := [c] + y;
    if y != "" {
      assert s[..2] == [c, y[0]] && y[..1] == [y[0]];
      assert CRLF <= s <==> s[..2] == CRLF;
      assert CRLF[0] == '\r' && CRLF[1] == '\n';
    }
  }

  lemma {:induction false} FoldedOneLine(rest: string)
    requires OneLine(rest)
    ensures AllOneLine(Continued(rest))
    decreases |rest|
  {
    hide OneLine;
    if rest == "" {
    } else if |rest| <= 74 {
      SpacedOneLine(rest);
    } else {
      assert rest == rest[..74] + rest[74..];
      OneLineParts(rest[..74], rest[74..]);
      SpacedOneLine(rest[..74]);
      FoldedOneLine(rest[74..]);
    }
  }

  lemma SpacedOneLine(x: string)
    requires OneLine(x)
    ensures OneLine(" " + x)
  {
    assert (" " + x)[1..] == x && (" " + x)[0] == ' ' && " " + x + "" == " " + x;
    assert Clear((" " + x)[1..], "");
  }

  lemma FoldedIsLines(line: string)
    requires OneLine(line)
    ensures AllOneLine(Folded(line))
  {
    hide OneLine;
    if |line| > 75 {
      assert line == line[..75] + line[75..];
      OneLineParts(line[..75], line[75..]);
      FoldedOneLine(line[75..]);
    }
  }

  lemma {:induction false} UnfoldPasses(x: string, rest: string)
    requires Clear(x, rest)
    ensures Unfold(x + rest) == x + Unfold(rest)
    decreases |x|
  {
    if x == "" {
      assert x + rest == rest;
    } else {
      assert (x + rest)[1..] == x[1..] + rest && (x + rest)[0] == x[0];
      assert "\r\n " <= x + rest ==> CRLF <= x + rest;
      UnfoldPasses(x[1..], rest);
      assert x == [x[0]] + x[1..];
    }
  }

  lemma UnfoldSpace(text: string)
    ensures Unfold(CRLF + " " + text) == Unfold(text)
  {
    assert (CRLF + " " + text)[3..] == text;
  }

  lemma UnfoldBreak(text: string)
    requires !(" " <= text)
    ensures Unfold(CRLF + text) == CRLF + Unfold(text)
  {
    var t := CRLF + text;
    assert t[0] == '\r' && t[1] == '\n' && t[2..] == text;
    assert text != "" ==> t[2] == text[0];
    assert t[1..][1..] == text && t[1..][0] == '\n';
    assert Unfold(t) == ['\r'] + Unfold(t[1..]);
    assert Unfold(t[1..]) == ['\n'] + Unfold(text);
  }

  /** Text before what follows it, as lines. */
  function Then(rest: seq<string>): string {
    if rest == [] then "" else CRLF + Join(rest, CRLF)
  }

  lemma JoinThen(x: string, rest: seq<string>)
    ensures Join([x] + rest, CRLF) == x + Then(rest)
  {
    if rest != [] { assert ([x] + rest)[1..] == rest; }
  }

  lemma ClearThen(x: string, rest: seq<string>)
    requires OneLine(x)
    ensures Clear(x, Then(rest))
  {
    hide OneLine;
    assert rest != [] ==> Then(rest)[0] == '\r';
    ClearBefore(x, Then(rest));
  }

  lemma RegroupFour(a: string, b: string, c: string, d: string)
    ensures a + ((b + c) + d) == a + b + (c + d)
  {
  }

  lemma ContinuedIs(rest: string, head: string, tail: string)
    requires rest != "" && head == (if |rest| <= 74 then rest else rest[..74]) && tail == (if |rest| <= 74 then "" else rest[74..])
    ensures Continued(rest) == [" " + head] + Continued(tail)
  {
  }

  lemma ContinuedStep(rest: string, head: string, tail: string, more: seq<string>)
    requires rest != "" && head == (if |rest| <= 74 then rest else rest[..74]) && tail == (if |rest| <= 74 then "" else rest[74..])
    ensures Then(Continued(rest) + more) == CRLF + " " + (head + Then(Continued(tail) + more))
  {
    hide Continued, Join;
    var after := Continued(tail) + more;
    ContinuedIs(rest, head, tail);
    assert Continued(rest) + more == [" " + head] + after;
    ThenStarts(" " + head, after);
    RegroupFour(CRLF, " ", head, Then(after));
  }

  lemma ThenStarts(x: string, rest: seq<string>)
    ensures Then([x] + rest) == CRLF + (x + Then(rest))
  {
    hide Join;
    JoinThen(x, rest);
  }

  lemma {:induction false} UnfoldContinued(rest: string, more: seq<string>)
    requires OneLine(rest)
    ensures Unfold(Then(Continued(rest) + more)) == rest + Unfold(Then(more))
    decreases |rest|
  {
    hide OneLine, Unfold, Then;
    if rest == "" {
      assert Continued(rest) + more == more;
    } else {
      var head, tail := if |rest| <= 74 then rest else rest[..74], if |rest| <= 74 then "" else rest[74..];
      assert rest == head + tail;
      OneLineParts(head, tail);
      var after := Continued(tail) + more;
      ContinuedStep(rest, head, tail, more);
      UnfoldSpace(head + Then(after));
      ClearThen(head, after);
      UnfoldPasses(head, Then(after));
      UnfoldContinued(tail, more);
      assert head + (tail + Unfold(Then(more))) == rest + Unfold(Then(more));
    }
  }

  lemma UnfoldFolded(line: string, more: seq<string>)
    requires OneLine(line)
    ensures Unfold(Join(Folded(line) + more, CRLF)) == line + Unfold(Then(more))
  {
    hide OneLine, Unfold;
    if |line| <= 75 {
      JoinThen(line, more);
      ClearThen(line, more);
      UnfoldPasses(line, Then(more));
    } else {
      var head, tail := line[..75], line[75..];
      assert line == head + tail;
      OneLineParts(head, tail);
      var after := Continued(tail) + more;
      assert Folded(line) + more == [head] + after;
      JoinThen(head, after);
      ClearThen(head, after);
      UnfoldPasses(head, Then(after));
      UnfoldContinued(tail, more);
      assert head + (tail + Unfold(Then(more))) == line + Unfold(Then(more));
    }
  }

  /** Unfolding a folded line gives it back. */
  lemma FoldRoundTrip(line: string)
    requires OneLine(line)
    ensures Unfold(FoldText(line)) == line
  {
    hide OneLine;
    UnfoldFolded(line, []);
    assert Folded(line) + [] == Folded(line) && line + "" == line;
  }

  // ---------------------------------------------------------------------------
  // Documents
  // ---------------------------------------------------------------------------

  /** The physical lines of all lines. */
  function FoldedAll(lines: seq<string>): (r: seq<string>)
    ensures lines != [] ==> r != []
  {
    if lines == [] then [] else Folded(lines[0]) + FoldedAll(lines[1..])
  }

  function FoldTexts(lines: seq<string>): (r: seq<string>)
    ensures |r| == |lines|
  {
    if lines == [] then [] else [FoldText(lines[0])] + FoldTexts(lines[1..])
  }

  lemma {:induction false} FoldTextsJoin(lines: seq<string>)
    requires lines != []
    ensures Join(FoldTexts(lines), CRLF) == Join(FoldedAll(lines), CRLF)
    decreases |lines|
  {
    hide Folded;
    if |lines| == 1 {
      assert FoldTexts(lines) == [FoldText(lines[0])];
      assert FoldedAll(lines) == Folded(lines[0]) + [] == Folded(lines[0]);
    } else {
      FoldTextsJoin(lines[1..]);
      JoinConcat(Folded(lines[0]), FoldedAll(lines[1..]), CRLF);
      assert FoldTexts(lines)[1..] == FoldTexts(lines[1..]);
    }
  }

  lemma {:induction false} FoldedAllFits(lines: seq<string>)
    requires AllOneLine(lines)
    ensures AllOneLine(FoldedAll(lines))
    ensures forall i :: 0 <= i < |FoldedAll(lines)| ==> |FoldedAll(lines)[i]| <= 75
    decreases |lines|
  {
    hide OneLine, Folded;
    if lines != [] {
      FoldedIsLines(lines[0]);
      FoldedFits(lines[0]);
      FoldedAllFits(lines[1..]);
    }
  }

  /** A property line: not empty, and not a continuation. */
  ghost predicate Starts(lines: seq<string>) {
    forall i :: 0 <= i < |lines| ==> lines[i] != "" && lines[i][0] != ' '
  }

  lemma {:induction false} UnfoldAll(lines: seq<string>)
    requires lines != [] && AllOneLine(lines) && Starts(lines)
    ensures Unfold(Join(FoldedAll(lines), CRLF)) == Join(lines, CRLF)
    decreases |lines|
  {
    hide OneLine, Unfold, Folded;
    var more := FoldedAll(lines[1..]);
    UnfoldFolded(lines[0], more);
    if |lines| == 1 {
      assert Unfold("") == "" by { UnfoldNothing(); }
    } else {
      UnfoldAll(lines[1..]);
      FoldedStart(lines[1..]);
      UnfoldBreak(Join(more, CRLF));
      assert lines[0] + (CRLF + Join(lines[1..], CRLF)) == lines[0] + CRLF + Join(lines[1..], CRLF);
    }
  }

  lemma UnfoldNothing()
    ensures Unfold("") == ""
  {
  }

  lemma FoldedStart(lines: seq<string>)
    requires lines != [] && Starts(lines)
    ensures !(" " <= Join(FoldedAll(lines), CRLF))
  {
    var parts := FoldedAll(lines);
    assert parts[0] == Folded(lines[0])[0] && parts[0] != "" && parts[0][0] == lines[0][0];
    assert Join(parts, CRLF)[0] == parts[0][0];
  }

  /** Unfolding and splitting a folded document gives its lines; every physical line fits. */
  lemma DocumentRoundTrip(lines: seq<string>)
    requires lines != [] && AllOneLine(lines) && Starts(lines)
    ensures Split(Unfold(Join(FoldTexts(lines), CRLF)), CRLF, "") == lines
    ensures forall p :: p in Split(Join(FoldTexts(lines), CRLF), CRLF, "") ==> |p| <= 75
  {
    hide OneLine, Unfold, Folded;
    FoldTextsJoin(lines);
    UnfoldAll(lines);
    SplitOfJoin(lines);
    FoldedAllFits(lines);
    SplitOfJoin(FoldedAll(lines));
  }
}
