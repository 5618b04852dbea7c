// Template rendering: sequential token replacement against simultaneous substitution.
module Templates {
  import opened Wrappers
  import opened Text
  import opened Strings

  const COUNT := 9

  /** The supported names, in the order the source lists them. */
  function Name(i: nat): string
    requires i < COUNT
  {
    if i == 0 then "candidate_name"
    else if i == 1 then "candidate_first_name"
    else if i == 2 then "candidate_email"
    else if i == 3 then "job_title"
    else if i == 4 then "company_name"
    else if i == 5 then "sender_name"
    else if i == 6 then "booking_link"
    else if i == 7 then "interview_date"
    else "interview_time"
  }

  function Token(i: nat): string
    requires i < COUNT
  {
    "{{" + Name(i) + "}}"
  }

  // ---------------------------------------------------------------------------
  // The values of a context
  // ---------------------------------------------------------------------------

  datatype Context = Context(fullName: string, email: Option<string>, jobTitle: Option<string>, company: string,
    senderFirst: string, senderLast: string, bookingLink: Option<string>, date: Option<string>, time: Option<string>)

  function Or(value: Option<string>, fallback: string): string {
    if value.Some? && value.value != "" then value.value else fallback
  }

  function FirstWord(s: string): string {
    if s == "" || IsSpace(s[0]) then "" else [s[0]] + FirstWord(s[1..])
  }

  function FirstName(fullName: string): string {
    Or(Some(FirstWord(Trim(fullName))), "Candidate")
  }

  /** The value of each token, in the order the source lists them. */
  function Values(c: Context): seq<string> {
    [Or(Some(c.fullName), "Candidate"), FirstName(c.fullName), Or(c.email, ""), Or(c.jobTitle, "the position"), c.company,
      c.senderFirst + " " + c.senderLast, Or(c.bookingLink, ""), Or(c.date, ""), Or(c.time, "")]
  }

  // ---------------------------------------------------------------------------
  // Rendering
  // ---------------------------------------------------------------------------

  /** `s.split(token).join(value)`. */
  function SplitJoin(s: string, token: string, value: string): string
    requires token != ""
  {
    Join(Split(s, token, ""), value)
  }

  /** Replaces the tokens of `order` one after the other. */
  function RenderIn(order: seq<nat>, s: string, values: seq<string>): string
    requires |values| == COUNT && forall q :: 0 <= q < |order| ==> order[q] < COUNT
    decreases |order|
  {
    if order == [] then s
    else
      var init, last := order[..|order| - 1], order[|order| - 1];
      Replace(RenderIn(init, s, values), Token(last), values[last])
  }

  function ListedOrder(n: nat): (order: seq<nat>)
    ensures |order| == n && forall q :: 0 <= q < n ==> order[q] == q
  {
    if n == 0 then [] else ListedOrder(n - 1) + [n - 1]
  }

  method Render(template: string, c: Context) returns (result: string)
    ensures result == RenderIn(ListedOrder(COUNT), template, Values(c))
  {
    var values := Values(c);
    result := template;
    for i := 0 to COUNT
      invariant result == RenderIn(ListedOrder(i), template, values)
    {
      SplitJoinIsReplace(result, Token(i), values[i], "");
      result := SplitJoin(result, Token(i), values[i]);
      assert ListedOrder(i + 1)[..i] == ListedOrder(i);
    }
  }

  // ---------------------------------------------------------------------------
  // Tokens in use
  // ---------------------------------------------------------------------------

  /** Position of the first closing brace, or the length of `s`. */
  function FirstClose(s: string): (q: nat)
    ensures q <= |s| && (q < |s| ==> s[q] == '}') && forall p :: 0 <= p < q ==> s[p] != '}'
  {
    if s == "" || s[0] == '}' then 0 else 1 + FirstClose(s[1..])
  }

  /** Length of a match of `{{`, one or more characters other than `}`, `}}` at the start of `s`; 0 if none. */
  function MatchAt(s: string): (m: nat)
    ensures m == 0 || 5 <= m <= |s|
  {
    if "{{" <= s then
      var q := FirstClose(s[2..]);
      if q > 0 && q + 3 < |s| && s[q + 3] == '}' then q + 4 else 0
    else 0
  }

  function Matches(s: string): seq<string>
    decreases |s|
  {
    if s == "" then []
    else if MatchAt(s) > 0 then [s[..MatchAt(s)]] + Matches(s[MatchAt(s)..])
    else Matches(s[1..])
  }

  predicate IsToken(m: string) {
    exists i :: 0 <= i < COUNT && m == Token(i)
  }

  /** `validateTokens` accepts: every match is a supported token. */
  predicate Accepted(s: string)
    decreases |s|
  {
    forall m :: m in Matches(s) ==> IsToken(m)
  }

  // ---------------------------------------------------------------------------
  // Simultaneous substitution
  // ---------------------------------------------------------------------------

  datatype Piece = Lit(c: char) | Tok(i: nat)

  predicate IsPieces(ps: seq<Piece>) {
    forall q :: 0 <= q < |ps| ==> ps[q].Tok? ==> ps[q].i < COUNT
  }

  function IndexOf(m: string): (i: nat)
    requires IsToken(m)
    ensures i < COUNT && Token(i) == m
  {
    TokensDiffer();
    var i :| 0 <= i < COUNT && m == Token(i); i
  }

  /** The characters and tokens of an accepted template. */
  function Parse(s: string): (ps: seq<Piece>)
    requires Accepted(s)
    ensures IsPieces(ps)
    decreases |s|
  {
    if s == "" then []
    else if MatchAt(s) > 0 then
      assert s[..MatchAt(s)] in Matches(s);
      [Tok(IndexOf(s[..MatchAt(s)]))] + Parse(s[MatchAt(s)..])
    else [Lit(s[0])] + Parse(s[1..])
  }

  function PieceText(p: Piece, values: seq<string>, done: set<nat>): string
    requires |values| == COUNT && (p.Tok? ==> p.i < COUNT)
  {
    match p
    case Lit(c) => [c]
    case Tok(i) => if i in done then values[i] else Token(i)
  }

  /** The pieces with the tokens of `done` replaced and the others left as they are. */
  function Subst(ps: seq<Piece>, values: seq<string>, done: set<nat>): string
    requires |values| == COUNT && IsPieces(ps)
  {
    if ps == [] then "" else PieceText(ps[0], values, done) + Subst(ps[1..], values, done)
  }

  const ALL := set i: nat | 0 <= i < COUNT

  /** All tokens of the template replaced at once. */
  function Simultaneous(s: string, values: seq<string>): string
    requires |values| == COUNT && Accepted(s)
  {
    Subst(Parse(s), values, ALL)
  }

  lemma {:induction false} ParseIsFaithful(s: string, values: seq<string>)
    requires |values| == COUNT && Accepted(s)
    ensures Subst(Parse(s), values, {}) == s
    decreases |s|
  {
    hide IsToken, MatchAt, Parse, Matches, Token;
    if s == "" {
      assert Parse(s) == [] by { ParseNothing(); }
    } else {
      var n := if MatchAt(s) > 0 then MatchAt(s) else 1;
      ParseStep(s);
      ParseIsFaithful(s[n..], values);
      assert s == s[..n] + s[n..];
    }
  }

  lemma ParseNothing()
    ensures Accepted("") && Parse("") == []
  {
  }

  /** Parsing takes one match or one character at a time. */
  lemma ParseStep(s: string)
    requires Accepted(s) && s != ""
    ensures var n := if MatchAt(s) > 0 then MatchAt(s) else 1;
      && Accepted(s[n..]) && Parse(s) != [] && Parse(s)[1..] == Parse(s[n..])
      && (if MatchAt(s) > 0 then Parse(s)[0].Tok? && Token(Parse(s)[0].i) == s[..n] else Parse(s)[0] == Lit(s[0]))
  {
    hide Name, MatchAt, IsToken;
    if MatchAt(s) > 0 {
      assert s[..MatchAt(s)] in Matches(s);
    }
  }

  // ---------------------------------------------------------------------------
  // Shape of the tokens
  // ---------------------------------------------------------------------------

  predicate NoBrace(s: string) {
    forall c :: c in s ==> c != '{' && c != '}'
  }

  lemma NamesAreClean(i: nat)
    requires i < COUNT
    ensures NoBrace(Name(i)) && |Name(i)| > 0
  {
  }

  lemma NamesDiffer(i: nat, j: nat)
    requires i < COUNT && j < COUNT && Name(i) == Name(j)
    ensures i == j
  {
    assert |Name(i)| == |Name(j)| && Name(i)[0] == Name(j)[0];
    assert Name(7)[10] == 'd' && Name(8)[10] == 't';
  }

  lemma TokensDiffer()
    ensures forall i, j :: 0 <= i < COUNT && 0 <= j < COUNT && Token(i) == Token(j) ==> i == j
  {
    forall i: nat, j: nat | i < COUNT && j < COUNT && Token(i) == Token(j) ensures i == j {
      assert Name(i) == Token(i)[2..|Token(i)| - 2];
      assert Name(j) == Token(j)[2..|Token(j)| - 2];
      NamesDiffer(i, j);
    }
  }
}
