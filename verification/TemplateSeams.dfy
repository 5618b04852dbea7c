// The exact condition under which rendering token by token is substitution at once.
module TemplateSeams {
  import opened Wrappers
  import opened Text
  import opened Strings
  import opened Templates
  import opened TemplateFacts

  // ---------------------------------------------------------------------------
  // Seams
  // ---------------------------------------------------------------------------

  /** `s` starts with tokens of `done` that have no text, and a closing brace follows them. */
  predicate ErasedRun(s: string, values: seq<string>, done: set<nat>)
    requires |values| == COUNT
    decreases |s|
  {
    var m := MatchAt(s);
    m > 0 && IsToken(s[..m]) && IndexOf(s[..m]) in done && values[IndexOf(s[..m])] == ""
      && ("}" <= s[m..] || ErasedRun(s[m..], values, done))
  }

  /** Token `k` without its last brace, then an erased run: erasing it completes the token. */
  predicate SeamAt(s: string, values: seq<string>, done: set<nat>, k: nat)
    requires |values| == COUNT && k < COUNT
  {
    var open := "{{" + Name(k) + "}";
    open <= s && ErasedRun(s[|open|..], values, done)
  }

  /** Some seam completes token `k` outside the tokens of the template. */
  predicate HasSeam(s: string, values: seq<string>, done: set<nat>, k: nat)
    requires |values| == COUNT && k < COUNT
    decreases |s|
  {
    s != "" && if MatchAt(s) > 0 then HasSeam(s[MatchAt(s)..], values, done, k)
               else SeamAt(s, values, done, k) || HasSeam(s[1..], values, done, k)
  }

  /** The first closing brace of `s` has another right after it. */
  predicate Closes(s: string) {
    FirstClose(s) + 1 < |s| && s[FirstClose(s) + 1] == '}'
  }

  ghost function Done(s: string, values: seq<string>, done: set<nat>): string
    requires |values| == COUNT && Accepted(s)
  {
    Subst(Parse(s), values, done)
  }

  lemma DoneLit(s: string, values: seq<string>, done: set<nat>)
    requires |values| == COUNT && Accepted(s) && s != "" && MatchAt(s) == 0
    ensures Accepted(s[1..]) && Done(s, values, done) == [s[0]] + Done(s[1..], values, done)
  {
    hide Parse, Matches, MatchAt;
    ParseStep(s);
  }

  lemma DoneTok(s: string, values: seq<string>, done: set<nat>)
    requires |values| == COUNT && Accepted(s) && s != "" && MatchAt(s) > 0
    ensures IsToken(s[..MatchAt(s)]) && Accepted(s[MatchAt(s)..])
    ensures Done(s, values, done) == (var i := IndexOf(s[..MatchAt(s)]); if i in done then values[i] else Token(i)) + Done(s[MatchAt(s)..], values, done)
  {
    hide Matches, MatchAt, Name, Token;
    ParseStep(s);
    assert s[..MatchAt(s)] in Matches(s) by { FirstMatch(s); }
  }

  lemma FirstMatch(s: string)
    requires s != "" && MatchAt(s) > 0
    ensures s[..MatchAt(s)] in Matches(s)
  {
  }

  lemma DoneNothing(values: seq<string>, done: set<nat>)
    requires |values| == COUNT
    ensures Accepted("") && Done("", values, done) == ""
  {
    ParseNothing();
  }

  lemma MatchCloses(s: string)
    ensures MatchAt(s) > 0 ==> Closes(s) && "{{" <= s
  {
    if MatchAt(s) > 0 {
      var q := FirstClose(s[2..]);
      FirstCloseAt(s, q + 2);
    }
  }

  lemma {:induction false} RunIsErased(s: string, values: seq<string>, done: set<nat>)
    requires PlainValues(values) && Accepted(s) && !("}" <= s)
    ensures "}" <= Done(s, values, done) <==> ErasedRun(s, values, done)
    decreases |s|
  {
    hide Name, Done, MatchAt, IsToken, Accepted;
    if s == "" {
      DoneNothing(values, done);
      assert MatchAt(s) == 0;
    } else if MatchAt(s) == 0 {
      DoneLit(s, values, done);
    } else {
      DoneTok(s, values, done);
      var m := MatchAt(s);
      var i, rest := IndexOf(s[..m]), s[m..];
      if i !in done {
        assert Token(i)[0] == '{';
      } else if values[i] != "" {
        assert values[i][0] in values[i];
      } else {
        assert Done(s, values, done) == Done(rest, values, done);
        if "}" <= rest {
          MatchCloses(rest);
          DoneLit(rest, values, done);
        } else {
          RunIsErased(rest, values, done);
        }
      }
    }
  }

  lemma {:induction false} WalkName(s: string, values: seq<string>, done: set<nat>, n: string)
    requires PlainValues(values) && Accepted(s) && NoBrace(n) && !Closes(s)
    ensures n + "}}" <= Done(s, values, done) <==> n + "}" <= s && ErasedRun(s[|n| + 1..], values, done)
    decreases |s|
  {
    hide Name, Done, MatchAt, IsToken, Accepted, ErasedRun;
    MatchCloses(s);
    if s == "" {
      DoneNothing(values, done);
    } else {
      DoneLit(s, values, done);
      var rest, d := s[1..], Done(s[1..], values, done);
      if n == "" {
        assert n + "}}" == ['}'] + "}" && n + "}" == "}";
        if s[0] == '}' {
          assert FirstClose(s) == 0;
          RunIsErased(rest, values, done);
          ConsPrefix('}', "}", d);
          assert ("}" <= s) && s[|n| + 1..] == rest;
        } else {
          assert (n + "}}")[0] == '}' && ([s[0]] + d)[0] == s[0];
        }
      } else {
        assert n[0] in n;
        assert n == [n[0]] + n[1..];
        assert n + "}}" == [n[0]] + (n[1..] + "}}") && n + "}" == [n[0]] + (n[1..] + "}");
        ConsPrefix(n[0], n[1..] + "}}", d);
        ConsPrefix(n[0], n[1..] + "}", rest);
        assert s == [s[0]] + rest;
        if s[0] == n[0] {
          assert forall c :: c in n[1..] ==> c in n;
          assert !Closes(rest) by { assert FirstClose(s) == 1 + FirstClose(rest); }
          WalkName(rest, values, done, n[1..]);
          if n + "}" <= s { assert s[|n| + 1..] == rest[|n[1..]| + 1..]; }
        } else {
          assert (n + "}}")[0] == n[0] && (n + "}")[0] == n[0] && ([s[0]] + d)[0] == s[0];
        }
      }
    }
  }

  lemma ConsPrefix(c: char, t: string, s: string)
    ensures [c] + t <= [c] + s <==> t <= s
  {
    assert ([c] + t)[1..] == t && ([c] + s)[1..] == s;
    if [c] + t <= [c] + s {
      assert t == ([c] + s)[1..|t| + 1];
    }
  }

  lemma NotMatching(s: string)
    requires MatchAt(s) == 0 && "{{" <= s
    ensures MatchAt(s[1..]) == 0
    ensures !Closes(s[2..]) || "}" <= s[2..]
  {
    MatchesEarlier(s);
  }

  /** Where a third opening brace stands, the match starts at the first. */
  lemma MatchesEarlier(s: string)
    requires "{{" <= s
    ensures MatchAt(s[1..]) > 0 ==> MatchAt(s) > 0
  {
    var u, v := s[2..], s[1..];
    if MatchAt(v) > 0 {
      assert u[0] == v[1] == '{' && v[2..] == u[1..];
      assert FirstClose(u) == 1 + FirstClose(u[1..]);
    }
  }

  /** At a literal character, the substituted text starts with token `k` exactly at a seam. */
  lemma LiteralStart(s: string, values: seq<string>, done: set<nat>, k: nat)
    requires PlainValues(values) && Accepted(s) && s != "" && MatchAt(s) == 0 && k < COUNT
    ensures Token(k) <= Done(s, values, done) <==> SeamAt(s, values, done, k)
  {
    hide Name, Done, MatchAt, IsToken, Accepted, ErasedRun;
    NamesAreClean(k);
    var n := Name(k);
    DoneLit(s, values, done);
    assert s == [s[0]] + s[1..];
    assert Token(k) == ['{'] + (['{'] + (n + "}}")) && "{{" + n + "}" == ['{'] + (['{'] + (n + "}"));
    assert Token(k)[0] == '{' && Token(k)[1] == '{';
    if "{{" <= s {
      NotMatching(s);
      DoneLit(s[1..], values, done);
      var u := s[2..];
      assert s[1..][1..] == u && s[1..] == ['{'] + u;
      ConsPrefix('{', ['{'] + (n + "}}"), ['{'] + Done(u, values, done));
      ConsPrefix('{', n + "}}", Done(u, values, done));
      ConsPrefix('{', ['{'] + (n + "}"), ['{'] + u);
      ConsPrefix('{', n + "}", u);
      if "}" <= u {
        MatchCloses(u);
        DoneLit(u, values, done);
        assert (n + "}}")[0] == n[0] && (n + "}")[0] == n[0] && n[0] in n;
      } else {
        WalkName(u, values, done, n);
        if n + "}" <= u { assert s[|"{{" + n + "}"|..] == u[|n| + 1..]; }
      }
    } else {
      assert ("{{" + n + "}")[..2] == "{{";
      if s[0] == '{' && s[1..] != "" {
        MatchCloses(s[1..]);
        assert s[1] != '{';
        DoneLit(s[1..], values, done);
      } else if s[1..] == "" {
        DoneNothing(values, done);
      }
    }
  }

  /** The spurious occurrences are the seams. */
  lemma {:induction false} SpuriousIsSeam(s: string, values: seq<string>, done: set<nat>, k: nat)
    requires PlainValues(values) && Accepted(s) && k < COUNT
    ensures Spurious(Parse(s), values, done, k) <==> HasSeam(s, values, done, k)
    decreases |s|
  {
    hide Name, Parse, MatchAt, SeamAt, Token;
    if s == "" {
      ParseNothing();
    } else {
      ParseStep(s);
      var m := if MatchAt(s) > 0 then MatchAt(s) else 1;
      SpuriousIsSeam(s[m..], values, done, k);
      if MatchAt(s) == 0 { LiteralStart(s, values, done, k); }
    }
  }

  // ---------------------------------------------------------------------------
  // Rendering in any order
  // ---------------------------------------------------------------------------

  ghost function SetOf(order: seq<nat>): set<nat> {
    set k | k in order
  }

  ghost predicate IsOrder(order: seq<nat>) {
    && (forall q :: 0 <= q < |order| ==> order[q] < COUNT)
    && (forall p, q :: 0 <= p < q < |order| ==> order[p] != order[q])
  }

  /** No step of the order meets a seam. */
  ghost predicate Seamless(s: string, values: seq<string>, order: seq<nat>)
    requires |values| == COUNT && IsOrder(order)
  {
    forall q :: 0 <= q < |order| ==> !HasSeam(s, values, SetOf(order[..q]), order[q])
  }

  lemma {:induction false} RenderSteps(s: string, values: seq<string>, order: seq<nat>) returns (ps: seq<Piece>)
    requires PlainValues(values) && Accepted(s) && IsOrder(order)
    ensures IsPieces(ps) && RenderIn(order, s, values) == Subst(ps, values, SetOf(order))
    ensures if Seamless(s, values, order) then ps == Parse(s)
      else Braces(Subst(ps, values, ALL)) < Braces(Subst(Parse(s), values, ALL))
    decreases |order|
  {
    hide Name, Subst, Braces, HasSeam, Spurious, Parse, Token, Accepted;
    if order == [] {
      ps := Parse(s);
      ParseIsFaithful(s, values);
      assert SetOf(order) == {};
    } else {
      var init, last := order[..|order| - 1], order[|order| - 1];
      assert forall q :: 0 <= q < |init| ==> init[..q] == order[..q];
      var before := RenderSteps(s, values, init);
      assert last !in SetOf(init);
      assert SetOf(init) + {last} == SetOf(order);
      ps := ReplaceOne(before, values, SetOf(init), last);
      SpuriousIsSeam(s, values, SetOf(init), last);
      assert Seamless(s, values, order) <==> Seamless(s, values, init) && !HasSeam(s, values, SetOf(init), last);
    }
  }

  /**
   * For an accepted template and values without braces, replacing the tokens one
   * after the other in any order is replacing them all at once exactly when no
   * step meets a seam.
   */
  lemma RenderingIsSimultaneous(s: string, values: seq<string>, order: seq<nat>)
    requires PlainValues(values) && Accepted(s) && IsOrder(order) && SetOf(order) == ALL
    ensures RenderIn(order, s, values) == Simultaneous(s, values) <==> Seamless(s, values, order)
  {
    hide Subst, Braces, Seamless, RenderIn, Accepted, Parse;
    var ps := RenderSteps(s, values, order);
  }

  // ---------------------------------------------------------------------------
  // Tokens left in the output
  // ---------------------------------------------------------------------------

  lemma {:induction false} OccursBeyond(x: string, rest: string, k: nat)
    requires k < COUNT && '{' !in x
    ensures Occurs(Token(k), x + rest) <==> Occurs(Token(k), rest)
    decreases |x|
  {
    hide Name;
    if x == "" {
      assert x + rest == rest;
    } else {
      assert (x + rest)[1..] == x[1..] + rest;
      assert (x + rest)[0] == x[0] && x[0] in x && Token(k)[0] == '{';
      assert forall c :: c in x[1..] ==> c in x;
      OccursBeyond(x[1..], rest, k);
    }
  }

  lemma {:induction false} OccursIsSpurious(ps: seq<Piece>, values: seq<string>, k: nat)
    requires PlainValues(values) && IsPieces(ps) && k < COUNT
    ensures Occurs(Token(k), Subst(ps, values, ALL)) <==> Spurious(ps, values, ALL, k)
    decreases |ps|
  {
    hide Name;
    if ps == [] {
      assert Token(k)[0] == '{';
    } else {
      OccursIsSpurious(ps[1..], values, k);
      var tail := Subst(ps[1..], values, ALL);
      match ps[0]
      case Lit(c) => assert ([c] + tail)[1..] == tail;
      case Tok(i) =>
        assert i in ALL;
        OccursBeyond(values[i], tail, k);
    }
  }

  /** The fully substituted text still holds supported token `k` exactly when the template has a seam for it. */
  lemma OutputKeepsToken(s: string, values: seq<string>, k: nat)
    requires PlainValues(values) && Accepted(s) && k < COUNT
    ensures Occurs(Token(k), Simultaneous(s, values)) <==> HasSeam(s, values, ALL, k)
  {
    hide Name, Parse, Occurs, Spurious, HasSeam, Accepted;
    OccursIsSpurious(Parse(s), values, k);
    SpuriousIsSeam(s, values, ALL, k);
  }

  // ---------------------------------------------------------------------------
  // What a caller can check on the values alone
  // ---------------------------------------------------------------------------

  lemma {:induction false} NoSeamWithoutEmpty(s: string, values: seq<string>, done: set<nat>, k: nat)
    requires |values| == COUNT && k < COUNT && forall i :: i in done && i < COUNT ==> values[i] != ""
    ensures !HasSeam(s, values, done, k)
    decreases |s|
  {
    hide Name, MatchAt, IsToken;
    if s != "" {
      NoSeamWithoutEmpty(s[(if MatchAt(s) > 0 then MatchAt(s) else 1)..], values, done, k);
    }
  }

  /** With no empty value every order renders alike, and no supported token is left. */
  lemma FullValuesRenderAlike(s: string, values: seq<string>, order: seq<nat>, k: nat)
    requires PlainValues(values) && Accepted(s) && IsOrder(order) && SetOf(order) == ALL && k < COUNT
    requires forall i :: 0 <= i < COUNT ==> values[i] != ""
    ensures RenderIn(order, s, values) == Simultaneous(s, values)
    ensures !Occurs(Token(k), RenderIn(order, s, values))
  {
    hide HasSeam, Occurs, RenderIn, Simultaneous, Accepted;
    forall q | 0 <= q < |order| ensures !HasSeam(s, values, SetOf(order[..q]), order[q]) {
      NoSeamWithoutEmpty(s, values, SetOf(order[..q]), order[q]);
    }
    RenderingIsSimultaneous(s, values, order);
    NoSeamWithoutEmpty(s, values, ALL, k);
    OutputKeepsToken(s, values, k);
  }

  /** A template that is one token renders to the value of that token, whatever the order. */
  lemma LoneTokenRenders(i: nat, values: seq<string>, order: seq<nat>)
    requires i < COUNT && PlainValues(values) && IsOrder(order) && SetOf(order) == ALL
    ensures Accepted(Token(i)) && RenderIn(order, Token(i), values) == values[i]
  {
    hide Name, HasSeam, RenderIn, Token;
    LoneTokenMatches(i);
    assert Token(i) != "";
    ParseStep(Token(i));
    ParseNothing();
    assert Token(i)[..|Token(i)|] == Token(i) && Token(i)[|Token(i)|..] == "";
    TokensDiffer();
    var ps := Parse(Token(i));
    assert ps[0] == Tok(i) && ps[1..] == [] && i in ALL;
    assert Subst(ps, values, ALL) == values[i] + Subst(ps[1..], values, ALL);
    forall q | 0 <= q < |order| ensures !HasSeam(Token(i), values, SetOf(order[..q]), order[q]) {
      LoneTokenHasNoSeam(i, values, SetOf(order[..q]), order[q]);
    }
    RenderingIsSimultaneous(Token(i), values, order);
  }

  lemma LoneTokenMatches(i: nat)
    requires i < COUNT
    ensures MatchAt(Token(i)) == |Token(i)| > 0 && Accepted(Token(i))
  {
    hide Name;
    NamesAreClean(i);
    var n, t := Name(i), Token(i);
    var u := t[2..];
    assert u == n + "}}";
    assert forall p :: 0 <= p < |n| ==> u[p] == n[p] && u[p] in n;
    FirstCloseAt(u, |n|);
    assert t[|n| + 3] == '}';
    assert t[..|t|] == t && t[|t|..] == "";
    assert Matches(t) == [t] + Matches("");
  }

  lemma LoneTokenHasNoSeam(i: nat, values: seq<string>, done: set<nat>, k: nat)
    requires i < COUNT && |values| == COUNT && k < COUNT
    ensures !HasSeam(Token(i), values, done, k)
  {
    hide Name, Token, MatchAt, SeamAt;
    LoneTokenMatches(i);
    assert Token(i)[|Token(i)|..] == "";
    assert !HasSeam("", values, done, k);
  }

  /** Which field each token stands for, and what stands in for a missing one. */
  lemma TokensMeanTheirFields(c: Context, order: seq<nat>)
    requires PlainValues(Values(c)) && IsOrder(order) && SetOf(order) == ALL
    ensures RenderIn(order, "{{candidate_name}}", Values(c)) == if c.fullName != "" then c.fullName else "Candidate"
    ensures RenderIn(order, "{{candidate_first_name}}", Values(c)) == FirstName(c.fullName)
    ensures RenderIn(order, "{{candidate_email}}", Values(c)) == if c.email.Some? then c.email.value else ""
    ensures RenderIn(order, "{{job_title}}", Values(c)) == if c.jobTitle.Some? && c.jobTitle.value != "" then c.jobTitle.value else "the position"
    ensures RenderIn(order, "{{company_name}}", Values(c)) == c.company
    ensures RenderIn(order, "{{sender_name}}", Values(c)) == c.senderFirst + " " + c.senderLast
    ensures RenderIn(order, "{{booking_link}}", Values(c)) == if c.bookingLink.Some? then c.bookingLink.value else ""
    ensures RenderIn(order, "{{interview_date}}", Values(c)) == if c.date.Some? then c.date.value else ""
    ensures RenderIn(order, "{{interview_time}}", Values(c)) == if c.time.Some? then c.time.value else ""
  {
    hide RenderIn, FirstName, SetOf, NoBrace, Token;
    assert |Values(c)| == COUNT;
    forall i: nat | i < COUNT ensures RenderIn(order, Token(i), Values(c)) == Values(c)[i] {
      LoneTokenRenders(i, Values(c), order);
    }
    TokensAreSpelled();
  }

  lemma TokensAreSpelled()
    ensures Token(0) == "{{candidate_name}}" && Token(1) == "{{candidate_first_name}}" && Token(2) == "{{candidate_email}}"
    ensures Token(3) == "{{job_title}}" && Token(4) == "{{company_name}}" && Token(5) == "{{sender_name}}"
    ensures Token(6) == "{{booking_link}}" && Token(7) == "{{interview_date}}" && Token(8) == "{{interview_time}}"
  {
    hide Token;
    CandidateNameIsSpelled();
    FirstNameIsSpelled();
    CandidateEmailIsSpelled();
    JobTitleIsSpelled();
    CompanyIsSpelled();
    SenderIsSpelled();
    BookingLinkIsSpelled();
    DateIsSpelled();
    TimeIsSpelled();
  }

  lemma CandidateNameIsSpelled()
    ensures Token(0) == "{{candidate_name}}"
  {
  }

  lemma FirstNameIsSpelled()
    ensures Token(1) == "{{candidate_first_name}}"
  {
  }

  lemma CandidateEmailIsSpelled()
    ensures Token(2) == "{{candidate_email}}"
  {
  }

  lemma JobTitleIsSpelled()
    ensures Token(3) == "{{job_title}}"
  {
  }

  lemma CompanyIsSpelled()
    ensures Token(4) == "{{company_name}}"
  {
  }

  lemma SenderIsSpelled()
    ensures Token(5) == "{{sender_name}}"
  {
  }

  lemma BookingLinkIsSpelled()
    ensures Token(6) == "{{booking_link}}"
  {
  }

  lemma DateIsSpelled()
    ensures Token(7) == "{{interview_date}}"
  {
  }

  lemma TimeIsSpelled()
    ensures Token(8) == "{{interview_time}}"
  {
  }

  ghost predicate AllSpaces(s: string) {
    forall i :: 0 <= i < |s| ==> IsSpace(s[i])
  }

  /** `word` is the first run of characters of `s` that are no spaces. */
  ghost predicate IsFirstWordOf(word: string, s: string) {
    && word != "" && (forall i :: 0 <= i < |word| ==> !IsSpace(word[i]))
    && exists k: nat :: StandsAt(word, s, k)
  }

  ghost predicate StandsAt(word: string, s: string, k: nat) {
    k + |word| <= |s| && s[k..k + |word|] == word && AllSpaces(s[..k]) && (k + |word| == |s| || IsSpace(s[k + |word|]))
  }

  lemma {:induction false} TrimStartSkips(s: string) returns (k: nat)
    ensures k <= |s| && AllSpaces(s[..k]) && TrimStart(s) == s[k..] && (k < |s| ==> !IsSpace(s[k]))
    decreases |s|
  {
    hide IsSpace;
    k := 0;
    if s != "" && IsSpace(s[0]) {
      var j := TrimStartSkips(s[1..]);
      k := j + 1;
      assert s[..k] == [s[0]] + s[1..][..j] && s[1..][j..] == s[k..];
    }
  }

  lemma {:induction false} TrimEndSkips(s: string) returns (k: nat)
    requires s != "" && !IsSpace(s[0])
    ensures 0 < k <= |s| && TrimEnd(s) == s[..k] && AllSpaces(s[k..])
    decreases |s|
  {
    hide IsSpace;
    k := |s|;
    if IsSpace(s[|s| - 1]) {
      k := TrimEndSkips(s[..|s| - 1]);
      assert s[..|s| - 1][..k] == s[..k];
      assert s[k..] == s[..|s| - 1][k..] + [s[|s| - 1]];
    } else {
      assert s[..k] == s && s[k..] == "";
    }
  }

  lemma {:induction false} FirstWordTakes(s: string)
    ensures var w := FirstWord(s);
      && |w| <= |s| && s[..|w|] == w && (forall i :: 0 <= i < |w| ==> !IsSpace(w[i])) && (|w| == |s| || IsSpace(s[|w|]))
    decreases |s|
  {
    hide IsSpace;
    if s != "" && !IsSpace(s[0]) {
      FirstWordTakes(s[1..]);
      var w := FirstWord(s[1..]);
      assert s[..|w| + 1] == [s[0]] + s[1..][..|w|];
    }
  }

  /** The first name is the first word of the full name, or `Candidate` if there is none. */
  lemma FirstNameIsExact(fullName: string)
    ensures if AllSpaces(fullName) then FirstName(fullName) == "Candidate" else IsFirstWordOf(FirstName(fullName), fullName)
  {
    hide IsSpace;
    var k := TrimStartSkips(fullName);
    var t := TrimStart(fullName);
    if k < |fullName| {
      assert t[0] == fullName[k];
      var n := TrimEndSkips(t);
      var u := TrimEnd(t);
      FirstWordTakes(u);
      var w := FirstWord(u);
      assert u[0] == t[0] && w != "";
      assert fullName[k..k + |w|] == w by { assert t[..n][..|w|] == t[..|w|]; }
      assert k + |w| < |fullName| ==> IsSpace(fullName[k + |w|]) by {
        if |w| < n { assert u[|w|] == t[|w|] == fullName[k + |w|]; } else if k + |w| < |fullName| { assert t[n..][0] == t[n] == fullName[k + n]; }
      }
      assert StandsAt(w, fullName, k);
    } else {
      assert fullName[..k] == fullName && t == "";
    }
  }

  const LAST := COUNT - 1

  /** The tokens that the listed order replaces before the last one. */
  const EARLIER := set k: nat | 0 <= k < LAST

  /** A template in which erasing token `i` completes the last token. */
  function SeamTemplate(i: nat): string
    requires i < COUNT
  {
    "{{" + Name(LAST) + "}" + Token(i) + "}"
  }

  lemma {:induction false} MatchesBeyond(x: string, rest: string)
    requires '{' !in x
    ensures Matches(x + rest) == Matches(rest)
    decreases |x|
  {
    if x == "" {
      assert x + rest == rest;
    } else {
      assert (x + rest)[1..] == x[1..] + rest;
      assert (x + rest)[0] == x[0] && x[0] in x;
      assert forall c :: c in x[1..] ==> c in x;
      MatchesBeyond(x[1..], rest);
    }
  }

  lemma TokenMatches(i: nat)
    requires i < COUNT
    ensures var t := Token(i) + "}"; MatchAt(t) == |Token(i)| > 0 && t[..MatchAt(t)] == Token(i) && t[MatchAt(t)..] == "}"
  {
    hide Name;
    NamesAreClean(i);
    var n, t := Name(i), Token(i) + "}";
    var u := t[2..];
    assert u == n + "}}}";
    assert forall p :: 0 <= p < |n| ==> u[p] == n[p] && u[p] in n;
    FirstCloseAt(u, |n|);
    assert t[|n| + 3] == '}';
  }

  /** The two braces that open the seam template open no match. */
  lemma SeamOpensNoMatch(i: nat)
    requires i < COUNT
    ensures var t := SeamTemplate(i); MatchAt(t) == 0 && MatchAt(t[1..]) == 0 && "{{" <= t && t[2..] == Name(LAST) + "}" + (Token(i) + "}")
  {
    hide Name;
    NamesAreClean(LAST);
    var n, t := Name(LAST), SeamTemplate(i);
    var u := t[2..];
    assert u == n + "}" + (Token(i) + "}");
    assert forall p :: 0 <= p < |n| ==> u[p] == n[p] && u[p] in n;
    FirstCloseAt(u, |n|);
    assert u[|n| + 1] == Token(i)[0] == '{';
    assert t[1..][1] == u[0] == n[0] && n[0] in n;
  }

  lemma SeamTemplateMatches(i: nat)
    requires i < COUNT
    ensures Matches(SeamTemplate(i)) == [Token(i)]
  {
    hide Name, MatchAt, Token;
    NamesAreClean(LAST);
    var n, t, tail := Name(LAST), SeamTemplate(i), Token(i) + "}";
    SeamOpensNoMatch(i);
    TokenMatches(i);
    assert t[1..][1..] == n + "}" + tail;
    assert forall c :: c in n + "}" ==> c in n || c == '}';
    MatchesBeyond(n + "}", tail);
    OnlyBrace();
    assert tail != "" && Matches(tail) == [Token(i)] + Matches("}");
  }

  lemma OnlyBrace()
    ensures Matches("}") == []
  {
    assert "}"[1..] == "";
  }

  lemma SeamTemplateWorks(values: seq<string>, i: nat)
    requires |values| == COUNT && i < LAST && values[i] == ""
    ensures Accepted(SeamTemplate(i))
    ensures HasSeam(SeamTemplate(i), values, EARLIER, LAST)
  {
    hide Name, MatchAt, Matches, Token;
    var n, t, tail := Name(LAST), SeamTemplate(i), Token(i) + "}";
    SeamTemplateMatches(i);
    SeamOpensNoMatch(i);
    TokenMatches(i);
    TokensDiffer();
    var open := "{{" + n + "}";
    assert t == open + tail;
    assert t[|open|..] == tail;
    assert IsToken(tail[..MatchAt(tail)]) && IndexOf(tail[..MatchAt(tail)]) == i;
    assert ErasedRun(tail, values, EARLIER);
  }

  /**
   * The listed order renders every accepted template as simultaneous substitution
   * does exactly when every value but the last listed one has text.
   */
  lemma ListedOrderIsSafeExactly(values: seq<string>)
    requires PlainValues(values)
    ensures (forall s :: Accepted(s) ==> RenderIn(ListedOrder(COUNT), s, values) == Simultaneous(s, values))
      <==> forall i :: 0 <= i < LAST ==> values[i] != ""
  {
    hide HasSeam, RenderIn, Simultaneous, Accepted, Name;
    var order := ListedOrder(COUNT);
    assert SetOf(order) == ALL by { forall k: nat | k < COUNT ensures k in order { assert order[k] == k; } }
    if forall i :: 0 <= i < LAST ==> values[i] != "" {
      forall s | Accepted(s) ensures RenderIn(order, s, values) == Simultaneous(s, values) {
        forall q | 0 <= q < |order| ensures !HasSeam(s, values, SetOf(order[..q]), order[q]) {
          NoSeamWithoutEmpty(s, values, SetOf(order[..q]), order[q]);
        }
        RenderingIsSimultaneous(s, values, order);
      }
    }
    if i: nat :| i < LAST && values[i] == "" {
      SeamTemplateWorks(values, i);
      assert SetOf(order[..LAST]) == EARLIER by {
        forall k: nat | k < LAST ensures k in order[..LAST] { assert order[..LAST][k] == k; }
      }
      assert order[LAST] == LAST;
      RenderingIsSimultaneous(SeamTemplate(i), values, order);
    }
  }
}
