// Splitting, joining and replacing text, as the standard library of the source does.
module Strings {

  /** The parts of `s` between occurrences of `sep`, the first of them after `piece`. */
  function Split(s: string, sep: string, piece: string): (r: seq<string>)
    requires sep != ""
    ensures r != []
    decreases |s|
  {
    if sep <= s then [piece] + Split(s[|sep|..], sep, "")
    else if s == "" then [piece]
    else Split(s[1..], sep, piece + [s[0]])
  }

  function Join(parts: seq<string>, glue: string): string
    requires parts != []
  {
    if |parts| == 1 then parts[0] else parts[0] + glue + Join(parts[1..], glue)
  }

  /** Every occurrence of `token`, from the left, replaced by `value`. */
  function Replace(s: string, token: string, value: string): string
    requires token != ""
    decreases |s|
  {
    if token <= s then value + Replace(s[|token|..], token, value)
    else if s == "" then ""
    else [s[0]] + Replace(s[1..], token, value)
  }

  predicate Occurs(t: string, s: string)
    decreases |s|
  {
    t <= s || (s != "" && Occurs(t, s[1..]))
  }

  /** `s` without the characters of `dropped`. */
  function Without(s: string, dropped: string): string {
    if s == "" then "" else (if s[0] in dropped then "" else [s[0]]) + Without(s[1..], dropped)
  }

  lemma {:induction false} WithoutMembers(s: string, dropped: string)
    ensures forall c :: c in Without(s, dropped) <==> c in s && c !in dropped
    decreases |s|
  {
    if s != "" {
      WithoutMembers(s[1..], dropped);
      assert s == [s[0]] + s[1..];
    }
  }

  lemma {:induction false} WithoutJoins(a: string, b: string, dropped: string)
    ensures Without(a + b, dropped) == Without(a, dropped) + Without(b, dropped)
    decreases |a|
  {
    if a == "" {
      assert a + b == b;
    } else {
      assert (a + b)[1..] == a[1..] + b;
      WithoutJoins(a[1..], b, dropped);
    }
  }

  lemma {:induction false} WithoutKeeps(a: string, dropped: string)
    ensures (forall c :: c in a ==> c !in dropped) ==> Without(a, dropped) == a
    ensures |a| == 1 && a[0] in dropped ==> Without(a, dropped) == ""
    decreases |a|
  {
    if a != "" && forall c :: c in a ==> c !in dropped {
      WithoutKeeps(a[1..], dropped);
      assert a[0] in a && a == [a[0]] + a[1..];
    }
  }

  lemma {:induction false} SplitJoinIsReplace(s: string, token: string, value: string, piece: string)
    requires token != ""
    ensures Join(Split(s, token, piece), value) == piece + Replace(s, token, value)
    decreases |s|
  {
    if token <= s {
      SplitJoinIsReplace(s[|token|..], token, value, "");
      var rest := Split(s[|token|..], token, "");
      assert ([piece] + rest)[1..] == rest;
      Regroup(piece, value, Replace(s[|token|..], token, value));
    } else if s != "" {
      SplitJoinIsReplace(s[1..], token, value, piece + [s[0]]);
      Regroup(piece, [s[0]], Replace(s[1..], token, value));
    }
  }

  lemma Regroup(a: string, b: string, c: string)
    ensures a + b + c == a + (b + c)
  {
  }

  lemma {:induction false} JoinConcat(a: seq<string>, b: seq<string>, glue: string)
    requires a != [] && b != []
    ensures Join(a + b, glue) == Join(a, glue) + glue + Join(b, glue)
    decreases |a|
  {
    if |a| == 1 {
      assert (a + b)[1..] == b;
    } else {
      assert (a + b)[1..] == a[1..] + b;
      JoinConcat(a[1..], b, glue);
    }
  }

  // ---------------------------------------------------------------------------
  // Lines
  // ---------------------------------------------------------------------------

  const CRLF := "\r\n"

  /** No line break begins inside `x` when `rest` follows it. */
  predicate Clear(x: string, rest: string)
    decreases |x|
  {
    x == "" || (!(CRLF <= x + rest) && Clear(x[1..], rest))
  }

  predicate OneLine(s: string) {
    Clear(s, "")
  }

  lemma {:induction false} OneLineMeans(s: string)
    ensures OneLine(s) <==> !Occurs(CRLF, s)
    decreases |s|
  {
    assert s + "" == s;
    if s != "" { OneLineMeans(s[1..]); }
  }

  lemma {:induction false} ClearJoins(x: string, y: string, rest: string)
    ensures Clear(x + y, rest) <==> Clear(x, y + rest) && Clear(y, rest)
    decreases |x|
  {
    if x == "" {
      assert x + y == y;
    } else {
      assert (x + y)[1..] == x[1..] + y && (x + y) + rest == x + (y + rest);
      ClearJoins(x[1..], y, rest);
    }
  }

  lemma {:induction false} ClearBefore(x: string, rest: string)
    requires OneLine(x) && !("\n" <= rest)
    ensures Clear(x, rest)
    decreases |x|
  {
    if x != "" {
      assert x + "" == x;
      assert |x| >= 2 ==> (x + rest)[1] == x[1];
      assert |x| == 1 && rest != "" ==> (x + rest)[1] == rest[0];
      ClearBefore(x[1..], rest);
    }
  }

  lemma {:induction false} NoFeedIsOneLine(x: string)
    requires '\n' !in x
    ensures OneLine(x)
    decreases |x|
  {
    if x != "" {
      assert x + "" == x;
      assert |x| >= 2 ==> x[1] in x;
      assert forall c :: c in x[1..] ==> c in x;
      NoFeedIsOneLine(x[1..]);
    }
  }

  lemma {:induction false} SplitPasses(x: string, rest: string, piece: string)
    requires Clear(x, rest)
    ensures Split(x + rest, CRLF, piece) == Split(rest, CRLF, piece + x)
    decreases |x|
  {
    if x == "" {
      assert x + rest == rest && piece + x == piece;
    } else {
      assert (x + rest)[1..] == x[1..] + rest && (x + rest)[0] == x[0];
      SplitPasses(x[1..], rest, piece + [x[0]]);
      assert piece + [x[0]] + x[1..] == piece + x;
    }
  }

  ghost predicate AllOneLine(parts: seq<string>) {
    forall i :: 0 <= i < |parts| ==> OneLine(parts[i])
  }

  /** Joining lines and splitting at line breaks gives the lines back. */
  lemma {:induction false} SplitOfJoin(parts: seq<string>)
    requires parts != [] && AllOneLine(parts)
    ensures Split(Join(parts, CRLF), CRLF, "") == parts
    decreases |parts|
  {
    hide OneLine;
    if |parts| == 1 {
      ClearBefore(parts[0], "");
      SplitPasses(parts[0], "", "");
      assert parts[0] + "" == parts[0] && "" + parts[0] == parts[0];
    } else {
      var rest := Join(parts[1..], CRLF);
      assert (CRLF + rest)[0] == '\r';
      ClearBefore(parts[0], CRLF + rest);
      SplitPasses(parts[0], CRLF + rest, "");
      assert parts[0] + CRLF + rest == parts[0] + (CRLF + rest) && "" + parts[0] == parts[0];
      assert (CRLF + rest)[|CRLF|..] == rest;
      SplitOfJoin(parts[1..]);
    }
  }

  /** A piece of a split holds no line break. */
  lemma {:induction false} PiecesAreLines(s: string, piece: string)
    requires Clear(piece, s)
    ensures AllOneLine(Split(s, CRLF, piece))
    decreases |s|
  {
    if CRLF <= s {
      ClearCut(piece, s);
      assert Clear("", s[|CRLF|..]);
      PiecesAreLines(s[|CRLF|..], "");
    } else if s != "" {
      assert s == [s[0]] + s[1..];
      assert Clear([s[0]], s[1..]) by { assert [s[0]][1..] == ""; }
      ClearJoins(piece, [s[0]], s[1..]);
      PiecesAreLines(s[1..], piece + [s[0]]);
    }
  }

  lemma {:induction false} ClearCut(x: string, rest: string)
    requires Clear(x, rest)
    ensures OneLine(x)
    decreases |x|
  {
    if x != "" {
      assert CRLF <= x + "" ==> CRLF <= x + rest;
      ClearCut(x[1..], rest);
    }
  }
}
