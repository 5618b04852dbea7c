// When sequential rendering is simultaneous substitution, and when its output is free of tokens.
module TemplateFacts {
  import opened Strings
  import opened Templates

  /** A match is two opening braces, one or more characters but closing braces, and two of those. */
  lemma MatchIsExact(s: string, body: string)
    ensures MatchAt(s) > 0 ==>
      (|s| >= MatchAt(s) > 4 && s[..MatchAt(s)] == "{{" + s[2..MatchAt(s) - 2] + "}}" && '}' !in s[2..MatchAt(s) - 2])
    ensures body != "" && '}' !in body && "{{" + body + "}}" <= s ==> MatchAt(s) == |body| + 4
  {
    if MatchAt(s) > 0 {
      var q := FirstClose(s[2..]);
      assert s[2..][q] == s[q + 2] == '}' && s[q + 3] == '}';
      assert forall p :: 2 <= p < q + 2 ==> s[p] == s[2..][p - 2];
    }
    var t := "{{" + body + "}}";
    if body != "" && '}' !in body && t <= s {
      assert forall p :: 0 <= p < |body| ==> s[2..][p] == t[p + 2] == body[p];
      assert s[2..][|body|] == t[|body| + 2] == '}' && s[|body| + 3] == t[|body| + 3] == '}';
      FirstCloseAt(s[2..], |body|);
    }
  }

  lemma {:induction false} FirstCloseAt(s: string, q: nat)
    requires q < |s| && s[q] == '}' && forall p :: 0 <= p < q ==> s[p] != '}'
    ensures FirstClose(s) == q
    decreases q
  {
    if q > 0 { FirstCloseAt(s[1..], q - 1); }
  }

  /** Matches are taken from the left, each after the end of the one before. */
  lemma {:induction false} MatchesAreLeftmost(s: string, p: nat)
    requires p <= |s| && forall q :: 0 <= q < p ==> MatchAt(s[q..]) == 0
    ensures p == |s| ==> Matches(s) == []
    ensures p < |s| && MatchAt(s[p..]) > 0 ==>
      Matches(s) == [s[p..p + MatchAt(s[p..])]] + Matches(s[p + MatchAt(s[p..])..])
    decreases p
  {
    hide MatchAt;
    if p > 0 {
      assert s[0..] == s;
      assert forall q :: 0 <= q < p - 1 ==> s[1..][q..] == s[q + 1..];
      MatchesAreLeftmost(s[1..], p - 1);
      assert s[1..][p - 1..] == s[p..];
      if p < |s| && MatchAt(s[p..]) > 0 {
        var m := MatchAt(s[p..]);
        assert s[1..][p - 1..p - 1 + m] == s[p..p + m] && s[1..][p - 1 + m..] == s[p + m..];
      }
    } else {
      assert s[0..] == s;
    }
  }

  ghost predicate PlainValues(values: seq<string>) {
    |values| == COUNT && forall i :: 0 <= i < COUNT ==> NoBrace(values[i])
  }

  // ---------------------------------------------------------------------------
  // Replacing one token in a partly substituted text
  // ---------------------------------------------------------------------------

  /** An occurrence of token `k` that begins at a literal piece: it is not a token of the template. */
  ghost predicate Spurious(ps: seq<Piece>, values: seq<string>, done: set<nat>, k: nat)
    requires |values| == COUNT && IsPieces(ps) && k < COUNT
    decreases |ps|
  {
    ps != [] && ((ps[0].Lit? && Token(k) <= Subst(ps, values, done)) || Spurious(ps[1..], values, done, k))
  }

  function Braces(s: string): nat {
    if s == "" then 0 else (if s[0] == '{' || s[0] == '}' then 1 else 0) + Braces(s[1..])
  }

  lemma {:induction false} BracesAdd(a: string, b: string)
    ensures Braces(a + b) == Braces(a) + Braces(b)
    decreases |a|
  {
    if a == "" {
      assert a + b == b;
    } else {
      assert (a + b)[1..] == a[1..] + b;
      BracesAdd(a[1..], b);
    }
  }

  lemma {:induction false} PlainHasNone(s: string)
    requires NoBrace(s)
    ensures Braces(s) == 0
    decreases |s|
  {
    if s != "" {
      assert s[0] in s;
      assert forall c :: c in s[1..] ==> c in s;
      PlainHasNone(s[1..]);
    }
  }

  lemma TokenBraces(k: nat)
    requires k < COUNT
    ensures Braces(Token(k)) >= 1
  {
    assert Token(k)[0] == '{';
  }

  /** A token cannot begin inside text without an opening brace. */
  lemma {:induction false} SkipPlain(x: string, rest: string, k: nat, value: string)
    requires k < COUNT && '{' !in x
    ensures Replace(x + rest, Token(k), value) == x + Replace(rest, Token(k), value)
    decreases |x|
  {
    hide Name;
    if x == "" {
      assert x + rest == rest;
    } else {
      assert (x + rest)[1..] == x[1..] + rest;
      assert Token(k)[0] == '{' && (x + rest)[0] == x[0];
      assert x[0] in x;
      SkipPlain(x[1..], rest, k, value);
      assert x == [x[0]] + x[1..];
    }
  }

  /** Two different tokens never overlap. */
  lemma SkipToken(j: nat, k: nat, rest: string, value: string)
    requires j < COUNT && k < COUNT && j != k
    ensures Replace(Token(j) + rest, Token(k), value) == Token(j) + Replace(rest, Token(k), value)
  {
    hide Name;
    var t := Token(j) + rest;
    NamesAreClean(j);
    NamesAreClean(k);
    var n, m := Name(j), Name(k);
    if Token(k) <= t { TokensClash(j, k, rest); }
    var u := "{" + n + "}}" + rest;
    assert t == ['{'] + u;
    assert u[1] != '{' by { assert u[1] == n[0]; assert n[0] in n; }
    assert !(Token(k) <= u) by { assert Token(k)[1] == '{'; }
    var v := n + "}}";
    assert u == ['{'] + (v + rest);
    SkipPlain(v, rest, k, value);
    assert t[0] == '{' && t[1..] == u && u[0] == '{' && u[1..] == v + rest;
    assert Token(j) == ['{'] + (['{'] + v);
  }

  lemma TokensClash(j: nat, k: nat, rest: string)
    requires j < COUNT && k < COUNT && Token(k) <= Token(j) + rest
    ensures j == k
  {
    hide Name;
    NamesAreClean(j);
    NamesAreClean(k);
    var n, m, t := Name(j), Name(k), Token(j) + rest;
    var a, b := Token(j), Token(k);
    assert forall p :: 2 <= p < |n| + 2 ==> t[p] == n[p - 2] && t[p] in n by {
      assert forall p :: 2 <= p < |n| + 2 ==> a[p] == n[p - 2];
    }
    assert forall p :: 2 <= p < |m| + 2 ==> t[p] == m[p - 2] && t[p] in m by {
      assert forall p :: 2 <= p < |m| + 2 ==> b[p] == m[p - 2];
    }
    assert t[|m| + 2] == b[|m| + 2] == '}' && t[|n| + 2] == a[|n| + 2] == '}';
    assert |m| == |n|;
    assert forall p :: 0 <= p < |m| ==> m[p] == t[p + 2] && n[p] == t[p + 2];
    assert m == n;
    NamesDiffer(j, k);
  }

  /** Text that starts a concatenation either ends inside the first part or covers it. */
  lemma PrefixOfJoin(t: string, head: string, tail: string)
    requires t <= head + tail
    ensures |head| <= |t| ==> t == head + t[|head|..] && t[|head|..] <= tail
    ensures |t| <= |head| ==> t <= head
  {
  }

  lemma NotOpening(t: string, head: string, tail: string)
    requires t <= head + tail && t != "" && '{' !in t
    ensures !("{{" <= head)
  {
    assert t[0] in t;
    assert head != "" ==> head[0] == t[0];
  }

  lemma NotTwice(t: string, head: string, tail: string)
    requires t <= head + tail && |t| >= 2 && t[1] != '{'
    ensures !("{{" <= head)
  {
    assert |head| >= 2 ==> head[1] == t[1];
  }

  lemma ClosesBeyond(t: string, head: string, tail: string)
    requires t <= head + tail && t != "" && t[|t| - 1] == '}'
    ensures |t| <= |head| ==> '}' in head
  {
    assert |t| <= |head| ==> head[|t| - 1] == (head + tail)[|t| - 1];
  }

  lemma StartsBeyond(t: string, head: string, tail: string)
    requires t <= head + tail && t != "" && t[0] == '{'
    ensures head != "" ==> '{' in head
  {
    assert head != "" ==> head[0] == (head + tail)[0];
  }

  /** What a piece contributes once all tokens are substituted. */
  lemma DonePiece(p: Piece, values: seq<string>, done: set<nat>)
    requires PlainValues(values) && (p.Tok? ==> p.i < COUNT)
    requires p.Lit? || p.i in done
    ensures PieceText(p, values, done) == PieceText(p, values, ALL)
    ensures p.Tok? ==> NoBrace(PieceText(p, values, done))
  {
  }

  lemma OpenPiece(p: Piece, values: seq<string>, done: set<nat>)
    requires PlainValues(values) && (p.Tok? ==> p.i < COUNT)
    requires p.Tok? && p.i !in done
    ensures "{{" <= PieceText(p, values, done)
  {
  }

  /** Pieces from which text that closes a token can be taken, leaving whole pieces. */
  lemma {:induction false} TakeClosing(ps: seq<Piece>, values: seq<string>, done: set<nat>, t: string) returns (rest: seq<Piece>)
    requires PlainValues(values) && IsPieces(ps)
    requires t <= Subst(ps, values, done) && '{' !in t && (t == "" || t[|t| - 1] == '}')
    ensures |rest| <= |ps|
    ensures IsPieces(rest) && Subst(ps, values, done) == t + Subst(rest, values, done)
    ensures Braces(Subst(ps, values, ALL)) == Braces(t) + Braces(Subst(rest, values, ALL))
    decreases |ps|
  {
    hide PieceText, Braces;
    if t == "" {
      rest := ps;
      assert t + Subst(ps, values, done) == Subst(ps, values, done);
      assert Braces("") == 0 by { NoBraces(); }
    } else {
      var head, tail := PieceText(ps[0], values, done), Subst(ps[1..], values, done);
      PrefixOfJoin(t, head, tail);
      NotOpening(t, head, tail);
      if ps[0].Tok? && ps[0].i !in done { OpenPiece(ps[0], values, done); }
      DonePiece(ps[0], values, done);
      if ps[0].Lit? { LitIsOne(ps[0], values, done); } else { ClosesBeyond(t, head, tail); }
      var t' := t[|head|..];
      assert forall c :: c in t' ==> c in t;
      assert t' != "" ==> t'[|t'| - 1] == t[|t| - 1];
      rest := TakeClosing(ps[1..], values, done, t');
      Regroup(head, t', Subst(rest, values, done));
      BracesAdd(head, t');
      BracesAdd(head, Subst(ps[1..], values, ALL));
    }
  }

  lemma NoBraces()
    ensures Braces("") == 0
  {
  }

  lemma LitIsOne(p: Piece, values: seq<string>, done: set<nat>)
    requires PlainValues(values) && p.Lit?
    ensures PieceText(p, values, done) == [p.c]
  {
  }

  /** A spurious occurrence takes whole pieces, and its braces with them. */
  lemma TakeToken(ps: seq<Piece>, values: seq<string>, done: set<nat>, k: nat) returns (rest: seq<Piece>)
    requires PlainValues(values) && IsPieces(ps) && k < COUNT && ps != [] && ps[0].Lit?
    requires Token(k) <= Subst(ps, values, done)
    ensures |rest| < |ps|
    ensures IsPieces(rest) && Subst(ps, values, done) == Token(k) + Subst(rest, values, done)
    ensures Braces(Subst(ps, values, ALL)) == Braces(Token(k)) + Braces(Subst(rest, values, ALL))
  {
    hide Name, Braces, PieceText;
    var tail := Subst(ps[1..], values, done);
    LitIsOne(ps[0], values, done);
    LitIsOne(ps[0], values, ALL);
    PrefixOfJoin(Token(k), [ps[0].c], tail);
    var inner := Token(k)[1..];
    assert Token(k) == ['{'] + inner && ps[0].c == '{';
    rest := TakeOpening(ps[1..], values, done, k);
    Regroup(['{'], inner, Subst(rest, values, done));
    BracesAdd(['{'], Subst(ps[1..], values, ALL));
    BracesAdd(['{'], inner);
  }

  lemma {:induction false} TakeOpening(ps: seq<Piece>, values: seq<string>, done: set<nat>, k: nat) returns (rest: seq<Piece>)
    requires PlainValues(values) && IsPieces(ps) && k < COUNT
    requires Token(k)[1..] <= Subst(ps, values, done)
    ensures |rest| <= |ps|
    ensures IsPieces(rest) && Subst(ps, values, done) == Token(k)[1..] + Subst(rest, values, done)
    ensures Braces(Subst(ps, values, ALL)) == Braces(Token(k)[1..]) + Braces(Subst(rest, values, ALL))
    decreases |ps|
  {
    hide Name, Braces, PieceText;
    NamesAreClean(k);
    var inner, closing := Token(k)[1..], Token(k)[2..];
    assert inner == ['{'] + closing && closing == Name(k) + "}}";
    var head, tail := PieceText(ps[0], values, done), Subst(ps[1..], values, done);
    PrefixOfJoin(inner, head, tail);
    assert inner[1] == Name(k)[0] && Name(k)[0] in Name(k);
    NotTwice(inner, head, tail);
    if ps[0].Tok? && ps[0].i !in done { OpenPiece(ps[0], values, done); }
    DonePiece(ps[0], values, done);
    if ps[0].Tok? {
      StartsBeyond(inner, head, tail);
      assert head + tail == tail;
      rest := TakeOpening(ps[1..], values, done, k);
      assert PieceText(ps[0], values, ALL) + Subst(ps[1..], values, ALL) == Subst(ps[1..], values, ALL);
    } else {
      LitIsOne(ps[0], values, done);
      assert forall c :: c in closing ==> c in Name(k) || c == '}';
      assert ps[0].c == '{' && inner[|head|..] == closing;
      rest := TakeClosing(ps[1..], values, done, closing);
      Regroup(['{'], closing, Subst(rest, values, done));
      BracesAdd(['{'], Subst(ps[1..], values, ALL));
      BracesAdd(['{'], closing);
    }
  }

  /**
   * Replacing token `k` in the substituted text is substituting `k` in other
   * pieces: the same pieces if no occurrence is spurious, else pieces with fewer
   * braces, because the braces of a spurious occurrence are gone.
   */
  lemma {:induction false} ReplaceOne(ps: seq<Piece>, values: seq<string>, done: set<nat>, k: nat) returns (ps': seq<Piece>)
    requires PlainValues(values) && IsPieces(ps) && k < COUNT && k !in done
    ensures IsPieces(ps') && Replace(Subst(ps, values, done), Token(k), values[k]) == Subst(ps', values, done + {k})
    ensures if Spurious(ps, values, done, k) then Braces(Subst(ps', values, ALL)) < Braces(Subst(ps, values, ALL)) else ps' == ps
    decreases |ps|
  {
    hide Name, PieceText, Braces;
    if ps == [] {
      return [];
    }
    var head, tail := PieceText(ps[0], values, done), Subst(ps[1..], values, done);
    var all := Subst(ps[1..], values, ALL);
    if ps[0].Lit? && Token(k) <= Subst(ps, values, done) {
      var rest := TakeToken(ps, values, done, k);
      var rest' := ReplaceOne(rest, values, done, k);
      ps' := [Tok(k)] + rest';
      ReplaceHere(rest, values, done, k);
      StepPiece(ps', values, done, k);
      BracesAdd(values[k], Subst(rest', values, ALL));
      PlainHasNone(values[k]);
      TokenBraces(k);
    } else {
      var rest' := ReplaceOne(ps[1..], values, done, k);
      ps' := [ps[0]] + rest';
      StepPiece(ps', values, done, k);
      PassPiece(ps, values, done, k);
      BracesAdd(PieceText(ps[0], values, ALL), Subst(ps[1..], values, ALL));
      BracesAdd(PieceText(ps[0], values, ALL), Subst(rest', values, ALL));
      assert [ps[0]] + ps[1..] == ps;
    }
  }

  lemma ReplaceHere(rest: seq<Piece>, values: seq<string>, done: set<nat>, k: nat)
    requires PlainValues(values) && IsPieces(rest) && k < COUNT
    ensures Replace(Token(k) + Subst(rest, values, done), Token(k), values[k])
      == values[k] + Replace(Subst(rest, values, done), Token(k), values[k])
  {
    hide Name;
    var tail := Subst(rest, values, done);
    assert (Token(k) + tail)[|Token(k)|..] == tail;
  }

  /** The first piece once `k` is done as well. */
  lemma StepPiece(ps: seq<Piece>, values: seq<string>, done: set<nat>, k: nat)
    requires PlainValues(values) && IsPieces(ps) && k < COUNT && ps != []
    ensures Subst(ps, values, done + {k}) == (if ps[0] == Tok(k) then values[k] else PieceText(ps[0], values, done)) + Subst(ps[1..], values, done + {k})
    ensures ps[0] == Tok(k) ==> PieceText(ps[0], values, ALL) == values[k]
  {
    hide Name;
  }

  /** A piece that does not begin a spurious occurrence is passed over whole. */
  lemma PassPiece(ps: seq<Piece>, values: seq<string>, done: set<nat>, k: nat)
    requires PlainValues(values) && IsPieces(ps) && k < COUNT && k !in done && ps != []
    requires !(ps[0].Lit? && Token(k) <= Subst(ps, values, done))
    ensures Replace(Subst(ps, values, done), Token(k), values[k])
      == (if ps[0] == Tok(k) then values[k] else PieceText(ps[0], values, done)) + Replace(Subst(ps[1..], values, done), Token(k), values[k])
  {
    hide Name;
    var tail := Subst(ps[1..], values, done);
    match ps[0]
    case Lit(c) =>
      assert ([c] + tail)[1..] == tail;
    case Tok(i) =>
      if i in done {
        assert '{' !in values[i];
        SkipPlain(values[i], tail, k, values[k]);
      } else if i == k {
        ReplaceHere(ps[1..], values, done, k);
      } else {
        SkipToken(i, k, tail, values[k]);
      }
  }
}
