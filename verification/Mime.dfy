// The raw message of a calendar email, and a reader of multipart messages.
module Mime {
  import opened Wrappers
  import opened Strings
  import opened Encodings
  import Invites

  // ---------------------------------------------------------------------------
  // Printing
  // ---------------------------------------------------------------------------

  /** A line break after every 76 characters. */
  function Wrap(s: string): string
    decreases |s|
  {
    if |s| < 76 then s else s[..76] + CRLF + Wrap(s[76..])
  }

  function Base64Wrapped(value: string): string {
    Wrap(EncodeText(value))
  }

  datatype Mail = Mail(from: string, to: string, subject: string, html: string, text: string, content: string,
    way: Invites.Method, filename: Option<string>)

  function Filename(m: Mail): string {
    if m.filename.Some? && m.filename.value != "" then m.filename.value else "invite.ics"
  }

  function Mixed(rand: string): string {
    "mixed_" + rand
  }

  function Alt(rand: string): string {
    "alt_" + rand
  }

  function MixedType(): string {
    "Content-Type: multipart/" + "mixed; boundary=\""
  }

  function AltType(): string {
    "Content-Type: multipart/" + "alternative; boundary=\""
  }

  function TopHeaders(m: Mail, rand: string): seq<string> {
    ["From: RecDesk <" + (m.from + ">"), "To: " + EncodeHeader(m.to), "Subject: " + EncodeHeader(m.subject),
      "MIME-Version: 1.0", MixedType() + Mixed(rand) + "\""]
  }

  function AltHeaders(rand: string): seq<string> {
    [AltType() + Alt(rand) + "\""]
  }

  function Encoded(): string {
    "Content-Transfer-Encoding: " + "base64"
  }

  function ContentType(kind: string, parameters: string): string {
    "Content-Type" + ": " + (kind + (";" + parameters))
  }

  function TextHeaders(): seq<string> {
    [ContentType("text/plain", " charset=UTF-8"), Encoded()]
  }

  function HtmlHeaders(): seq<string> {
    [ContentType("text/html", " charset=UTF-8"), Encoded()]
  }

  function CalendarHeaders(m: Mail): seq<string> {
    [ContentType("text/calendar", " charset=UTF-8; method=" + Invites.MethodName(Some(m.way))), Encoded()]
  }

  function AttachmentHeaders(m: Mail): seq<string> {
    [ContentType("application/ics", " name=\"" + (Filename(m) + "\"")),
      "Content-Disposition: " + "attachment; filename=\"" + (Filename(m) + "\""), Encoded()]
  }

  /** Headers and a body of one or more items. */
  function Part(headers: seq<string>, body: seq<string>): seq<string> {
    headers + ([""] + (body + [""]))
  }

  datatype Bodies = Bodies(text: seq<string>, html: seq<string>, calendar: seq<string>)

  function AltBody(m: Mail, rand: string, b: Bodies): seq<string> {
    var alt := "--" + Alt(rand);
    [alt] + (Part(TextHeaders(), b.text) + ([alt] + (Part(HtmlHeaders(), b.html)
      + ([alt] + (Part(CalendarHeaders(m), b.calendar) + [alt + "--", ""])))))
  }

  function MixedBody(m: Mail, rand: string, b: Bodies): seq<string> {
    var mixed := "--" + Mixed(rand);
    [mixed] + ((AltHeaders(rand) + ([""] + AltBody(m, rand, b))) + ([mixed] + (Part(AttachmentHeaders(m), b.calendar) + [mixed + "--", ""])))
  }

  /** The items in the order the source joins them. */
  function Items(m: Mail, rand: string, b: Bodies): seq<string> {
    TopHeaders(m, rand) + ([""] + MixedBody(m, rand, b))
  }

  /** The message, for a random suffix `rand`. */
  function BuildCalendarMime(m: Mail, rand: string): string {
    Join(Items(m, rand, Bodies([Base64Wrapped(m.text)], [Base64Wrapped(m.html)], [Base64Wrapped(m.content)])), CRLF)
  }

  /** Digits and lower-case letters. */
  predicate IsSuffix(rand: string) {
    forall c :: c in rand ==> '0' <= c <= '9' || 'a' <= c <= 'z'
  }

  // ---------------------------------------------------------------------------
  // Reading, as section 5.1.1 of RFC 2046 describes it
  // ---------------------------------------------------------------------------

  /** An entity: headers, and either parts or decoded text. */
  datatype Entity = Leaf(headers: seq<string>, text: Option<string>) | Multi(headers: seq<string>, parts: seq<Entity>)

  function HeadersOf(lines: seq<string>): seq<string> {
    if lines == [] || lines[0] == "" then [] else [lines[0]] + HeadersOf(lines[1..])
  }

  function BodyOf(lines: seq<string>): (r: seq<string>)
    ensures |r| <= |lines|
  {
    if lines == [] then [] else if lines[0] == "" then lines[1..] else BodyOf(lines[1..])
  }

  function UpToQuote(s: string): string {
    if s == "" || s[0] == '"' then "" else [s[0]] + UpToQuote(s[1..])
  }

  function BoundaryOf(headers: seq<string>): Option<string> {
    if headers == [] then None
    else if MixedType() <= headers[0] then Some(UpToQuote(headers[0][|MixedType()|..]))
    else if AltType() <= headers[0] then Some(UpToQuote(headers[0][|AltType()|..]))
    else BoundaryOf(headers[1..])
  }

  /**
   * The runs of lines between delimiters, of which `run` is the first so far. A line
   * that starts with the delimiter is one, whatever follows, and closes the entity
   * if two hyphens follow.
   */
  function Runs(lines: seq<string>, delimiter: string, run: seq<string>): (r: seq<seq<string>>)
    ensures r != [] && |r[0]| <= |run| + |lines| && forall i :: 1 <= i < |r| ==> |r[i]| < |lines|
    decreases |lines|
  {
    if lines == [] then [run]
    else if delimiter <= lines[0] then
      if "--" <= lines[0][|delimiter|..] then [run] else [run] + Runs(lines[1..], delimiter, [])
    else Runs(lines[1..], delimiter, run + [lines[0]])
  }

  function Concat(lines: seq<string>): string {
    if lines == [] then "" else lines[0] + Concat(lines[1..])
  }

  predicate SaysBase64(headers: seq<string>) {
    exists i :: 0 <= i < |headers| && headers[i] == "Content-Transfer-Encoding: " + "base64"
  }

  /** The text before the first delimiter is no part; a text in another encoding is not read. */
  function ReadEntity(lines: seq<string>): Entity
    decreases |lines|
  {
    var headers, body := HeadersOf(lines), BodyOf(lines);
    var boundary := BoundaryOf(headers);
    if boundary.None? then Leaf(headers, if SaysBase64(headers) then DecodeText(Concat(body)) else None)
    else
      var runs := Runs(body, "--" + boundary.value, [])[1..];
      Multi(headers, seq(|runs|, i requires 0 <= i < |runs| => ReadEntity(runs[i])))
  }

  function ReadMail(text: string): Entity {
    ReadEntity(Split(text, CRLF, ""))
  }

  // ---------------------------------------------------------------------------
  // Wrapped text
  // ---------------------------------------------------------------------------

  function WrapLines(s: string): (r: seq<string>)
    ensures r != []
    decreases |s|
  {
    if |s| < 76 then [s] else [s[..76]] + WrapLines(s[76..])
  }

  /** The lines of a wrapped text: none is longer than 76, all hold text of it only, and together they are it. */
  lemma {:induction false} WrapIsLines(s: string)
    ensures Wrap(s) == Join(WrapLines(s), CRLF) && Concat(WrapLines(s)) == s
    ensures forall i :: 0 <= i < |WrapLines(s)| ==> |WrapLines(s)[i]| <= 76 && forall c :: c in WrapLines(s)[i] ==> c in s
    ensures forall i :: 0 <= i < |WrapLines(s)| - 1 ==> |WrapLines(s)[i]| == 76
    decreases |s|
  {
    if |s| >= 76 {
      WrapIsLines(s[76..]);
      assert s == s[..76] + s[76..];
      assert WrapLines(s)[1..] == WrapLines(s[76..]);
    } else {
      assert s + "" == s && Concat([]) == "";
    }
  }

  lemma {:induction false} DropBreaks(x: string, rest: string)
    requires '\r' !in x
    ensures Replace(x + rest, CRLF, "") == x + Replace(rest, CRLF, "")
    decreases |x|
  {
    if x == "" {
      assert x + rest == rest;
    } else {
      assert (x + rest)[1..] == x[1..] + rest && (x + rest)[0] == x[0] && x[0] in x;
      assert forall c :: c in x[1..] ==> c in x;
      DropBreaks(x[1..], rest);
      assert x == [x[0]] + x[1..];
    }
  }

  lemma {:induction false} WrapDropsBack(s: string)
    requires '\r' !in s
    ensures Replace(Wrap(s), CRLF, "") == s
    decreases |s|
  {
    if |s| < 76 {
      DropBreaks(s, "");
      assert s + "" == s && Replace("", CRLF, "") == "";
    } else {
      DropBreaks(s[..76], CRLF + Wrap(s[76..]));
      assert s[..76] + CRLF + Wrap(s[76..]) == s[..76] + (CRLF + Wrap(s[76..]));
      assert (CRLF + Wrap(s[76..]))[|CRLF|..] == Wrap(s[76..]);
      WrapDropsBack(s[76..]);
      assert s == s[..76] + s[76..];
    }
  }

  /** A wrapped body has lines of at most 76 characters, and decodes to its text once the breaks are dropped. */
  lemma WrappedRoundTrip(value: string)
    ensures forall p :: p in Split(Base64Wrapped(value), CRLF, "") ==> |p| <= 76
    ensures DecodeText(Replace(Base64Wrapped(value), CRLF, "")) == Some(value)
  {
    hide Wrap, EncodeText, DecodeText, OneLine, Split, Replace;
    var s := EncodeText(value);
    TextRoundTrip(value);
    WrapIsLines(s);
    WrapDropsBack(s);
    forall i | 0 <= i < |WrapLines(s)| ensures OneLine(WrapLines(s)[i]) {
      NoFeedIsOneLine(WrapLines(s)[i]);
    }
    SplitOfJoin(WrapLines(s));
  }

  // ---------------------------------------------------------------------------
  // The lines of a message
  // ---------------------------------------------------------------------------

  lemma JoinOne(s: string)
    ensures Join([s], CRLF) == s
  {
  }

  /** Lists whose parts join alike join alike. */
  lemma JoinBoth(a: seq<string>, b: seq<string>, x: seq<string>, y: seq<string>)
    requires a != [] && b != [] && x != [] && y != [] && Join(a, CRLF) == Join(b, CRLF) && Join(x, CRLF) == Join(y, CRLF)
    ensures Join(a + x, CRLF) == Join(b + y, CRLF)
  {
    hide Join;
    JoinConcat(a, x, CRLF);
    JoinConcat(b, y, CRLF);
  }

  lemma PartsJoin(headers: seq<string>, a: seq<string>, b: seq<string>)
    requires headers != [] && a != [] && b != [] && Join(a, CRLF) == Join(b, CRLF)
    ensures Join(Part(headers, a), CRLF) == Join(Part(headers, b), CRLF)
  {
    hide Join;
    JoinBoth(a, b, [""], [""]);
    JoinBoth([""], [""], a + [""], b + [""]);
    JoinBoth(headers, headers, [""] + (a + [""]), [""] + (b + [""]));
  }

  ghost predicate Alike(a: Bodies, b: Bodies) {
    && a.text != [] && b.text != [] && Join(a.text, CRLF) == Join(b.text, CRLF)
    && a.html != [] && b.html != [] && Join(a.html, CRLF) == Join(b.html, CRLF)
    && a.calendar != [] && b.calendar != [] && Join(a.calendar, CRLF) == Join(b.calendar, CRLF)
  }

  lemma AltBodiesJoin(m: Mail, rand: string, a: Bodies, b: Bodies)
    requires Alike(a, b)
    ensures Join(AltBody(m, rand, a), CRLF) == Join(AltBody(m, rand, b), CRLF)
  {
    hide Join, Part, TextHeaders, HtmlHeaders, CalendarHeaders;
    NoneEmpty(m, rand);
    PartsJoin(TextHeaders(), a.text, b.text);
    PartsJoin(HtmlHeaders(), a.html, b.html);
    PartsJoin(CalendarHeaders(m), a.calendar, b.calendar);
    var alt := "--" + Alt(rand);
    var x, y := Part(CalendarHeaders(m), a.calendar), Part(CalendarHeaders(m), b.calendar);
    PartsAreSome(CalendarHeaders(m), a.calendar, b.calendar);
    JoinBoth(x, y, [alt + "--", ""], [alt + "--", ""]);
    x, y := x + [alt + "--", ""], y + [alt + "--", ""];
    JoinBoth([alt], [alt], x, y);
    x, y := [alt] + x, [alt] + y;
    PartsAreSome(HtmlHeaders(), a.html, b.html);
    JoinBoth(Part(HtmlHeaders(), a.html), Part(HtmlHeaders(), b.html), x, y);
    x, y := Part(HtmlHeaders(), a.html) + x, Part(HtmlHeaders(), b.html) + y;
    JoinBoth([alt], [alt], x, y);
    x, y := [alt] + x, [alt] + y;
    PartsAreSome(TextHeaders(), a.text, b.text);
    JoinBoth(Part(TextHeaders(), a.text), Part(TextHeaders(), b.text), x, y);
    JoinBoth([alt], [alt], Part(TextHeaders(), a.text) + x, Part(TextHeaders(), b.text) + y);
  }

  lemma ItemsJoin(m: Mail, rand: string, a: Bodies, b: Bodies)
    requires Alike(a, b)
    ensures Items(m, rand, a) != [] && Items(m, rand, b) != []
    ensures Join(Items(m, rand, a), CRLF) == Join(Items(m, rand, b), CRLF)
  {
    hide Join, Part, TopHeaders, AltHeaders, AttachmentHeaders, AltBody;
    NoneEmpty(m, rand);
    AltBodiesJoin(m, rand, a, b);
    var mixed := "--" + Mixed(rand);
    var h := AttachmentHeaders(m);
    PartsAreSome(h, a.calendar, b.calendar);
    PartsJoin(h, a.calendar, b.calendar);
    var x, y := Part(h, a.calendar), Part(h, b.calendar);
    JoinBoth(x, y, [mixed + "--", ""], [mixed + "--", ""]);
    x, y := x + [mixed + "--", ""], y + [mixed + "--", ""];
    JoinBoth([mixed], [mixed], x, y);
    x, y := [mixed] + x, [mixed] + y;
    var p, q := AltBody(m, rand, a), AltBody(m, rand, b);
    assert p != [] && q != [] by { NoneEmptyBody(m, rand, a, b); }
    JoinBoth([""], [""], p, q);
    p, q := [""] + p, [""] + q;
    JoinBoth(AltHeaders(rand), AltHeaders(rand), p, q);
    p, q := AltHeaders(rand) + p, AltHeaders(rand) + q;
    JoinBoth(p, q, x, y);
    JoinBoth([mixed], [mixed], p + x, q + y);
    x, y := [mixed] + (p + x), [mixed] + (q + y);
    JoinBoth([""], [""], x, y);
    JoinBoth(TopHeaders(m, rand), TopHeaders(m, rand), [""] + x, [""] + y);
  }

  lemma PartsAreSome(headers: seq<string>, a: seq<string>, b: seq<string>)
    ensures Part(headers, a) != [] && Part(headers, b) != []
  {
  }

  lemma NoneEmptyBody(m: Mail, rand: string, a: Bodies, b: Bodies)
    ensures AltBody(m, rand, a) != [] && AltBody(m, rand, b) != []
  {
  }

  lemma NoneEmpty(m: Mail, rand: string)
    ensures TopHeaders(m, rand) != [] && AltHeaders(rand) != [] && TextHeaders() != [] && HtmlHeaders() != []
    ensures CalendarHeaders(m) != [] && AttachmentHeaders(m) != []
  {
  }

  /** The bodies by their lines. */
  function WrappedBodies(m: Mail): Bodies {
    Bodies(WrapLines(EncodeText(m.text)), WrapLines(EncodeText(m.html)), WrapLines(EncodeText(m.content)))
  }

  /** The lines of the message: every wrapped body counts by its own lines. */
  function MailLines(m: Mail, rand: string): (r: seq<string>)
    ensures r != []
  {
    Items(m, rand, WrappedBodies(m))
  }

  lemma MessageIsLines(m: Mail, rand: string)
    ensures BuildCalendarMime(m, rand) == Join(MailLines(m, rand), CRLF)
  {
    hide Join, WrapLines, EncodeText, Items, Wrap;
    WrapIsLines(EncodeText(m.text));
    WrapIsLines(EncodeText(m.html));
    WrapIsLines(EncodeText(m.content));
    JoinOne(Base64Wrapped(m.text));
    JoinOne(Base64Wrapped(m.html));
    JoinOne(Base64Wrapped(m.content));
    ItemsJoin(m, rand, Bodies([Base64Wrapped(m.text)], [Base64Wrapped(m.html)], [Base64Wrapped(m.content)]), WrappedBodies(m));
  }
}
