// The calendar invite of an interview, printed line by line and read back.
module Invites {
  import opened Wrappers
  import opened Calendar
  import opened Text
  import opened Strings
  import opened Ics

  // ---------------------------------------------------------------------------
  // Instants
  // ---------------------------------------------------------------------------

  function Digits3(n: int): string
    requires 0 <= n < 1000
  {
    [DigitChar(n / 100), DigitChar(n / 10 % 10), DigitChar(n % 10)]
  }

  /** `toISOString` for the years 1000 to 9999. */
  function IsoString(t: int): string {
    var n := FieldsOf(t);
    DateKey(n.date) + "T" + Pad(n.hour) + ":" + Pad(n.minute) + ":" + Pad(n.second) + "." + Digits3(t % 1000) + "Z"
  }

  function ToIcsDate(t: int): string {
    Split(Without(IsoString(t), "-:"), ".", "")[0] + "Z"
  }

  /** The instant of a UTC form `YYYYMMDDTHHMMSSZ`. */
  function ReadIcsDate(s: string): Option<int> {
    if && |s| == 16 && TwoDigitsAt(s, 0) && TwoDigitsAt(s, 2) && TwoDigitsAt(s, 4) && TwoDigitsAt(s, 6)
       && TwoDigitsAt(s, 9) && TwoDigitsAt(s, 11) && TwoDigitsAt(s, 13) && s[8] == 'T' && s[15] == 'Z'
    then
      var date := CivilDate(100 * TwoDigitValue(s, 0) + TwoDigitValue(s, 2), TwoDigitValue(s, 4), TwoDigitValue(s, 6));
      Some(UtcMs(Naive(date, TwoDigitValue(s, 9), TwoDigitValue(s, 11), TwoDigitValue(s, 13))))
    else None
  }

  lemma {:induction false} SplitTakes(a: string, rest: string, piece: string)
    requires '.' !in a
    ensures Split(a + "." + rest, ".", piece)[0] == piece + a
    decreases |a|
  {
    if a == "" {
      assert a + "." + rest == "." + rest && piece + a == piece;
    } else {
      assert (a + "." + rest)[1..] == a[1..] + "." + rest && (a + "." + rest)[0] == a[0] && a[0] in a;
      SplitTakes(a[1..], rest, piece + [a[0]]);
      assert piece + [a[0]] + a[1..] == piece + a;
    }
  }

  /** The date and clock digits of the printed form. */
  function Stamp(n: Naive): string
    requires IsCivil(n.date) && FourDigitYear(n.date) && 0 <= n.hour < 24 && 0 <= n.minute < 60 && 0 <= n.second < 60
  {
    NumberString(n.date.year) + Pad(n.date.month) + Pad(n.date.day) + "T" + Pad(n.hour) + Pad(n.minute) + Pad(n.second)
  }

  ghost predicate Printable(s: string) {
    forall c :: c in s ==> IsDigit(c)
  }

  lemma PadPrints(n: int)
    requires 0 <= n < 100
    ensures Printable(Pad(n)) && |Pad(n)| == 2 && TwoDigitsAt(Pad(n), 0) && TwoDigitValue(Pad(n), 0) == n
    ensures Without(Pad(n), "-:") == Pad(n)
  {
    PadTwoDigits(n);
    WithoutKeeps(Pad(n), "-:");
  }

  lemma YearPrints(y: int)
    requires 1000 <= y <= 9999
    ensures Printable(NumberString(y)) && |NumberString(y)| == 4 && Without(NumberString(y), "-:") == NumberString(y)
    ensures TwoDigitsAt(NumberString(y), 0) && TwoDigitValue(NumberString(y), 0) == y / 100
    ensures TwoDigitsAt(NumberString(y), 2) && TwoDigitValue(NumberString(y), 2) == y % 100
  {
    hide NumberString, Pad;
    YearIsTwoPads(y);
    PadPrints(y / 100);
    PadPrints(y % 100);
    WithoutJoins(Pad(y / 100), Pad(y % 100), "-:");
  }

  lemma StampOfIso(t: int)
    requires FourDigitYear(FieldsOf(t).date)
    ensures ToIcsDate(t) == Stamp(FieldsOf(t)) + "Z"
  {
    hide NumberString, Pad, FieldsOf, Split, Without;
    var n, f := FieldsOf(t), Digits3(t % 1000) + "Z";
    var y, m, d, h, i, s := NumberString(n.date.year), Pad(n.date.month), Pad(n.date.day), Pad(n.hour), Pad(n.minute), Pad(n.second);
    YearPrints(n.date.year);
    PadPrints(n.date.month);
    PadPrints(n.date.day);
    PadPrints(n.hour);
    PadPrints(n.minute);
    PadPrints(n.second);
    assert IsoString(t) == y + ("-" + (m + ("-" + (d + ("T" + (h + (":" + (i + (":" + (s + ("." + f)))))))))));
    WithoutKeeps("-", "-:");
    WithoutKeeps(":", "-:");
    WithoutKeeps("T", "-:");
    WithoutKeeps("." + f, "-:");
    WithoutJoins(s, "." + f, "-:");
    WithoutJoins(":", s + ("." + f), "-:");
    WithoutJoins(i, ":" + (s + ("." + f)), "-:");
    WithoutJoins(":", i + (":" + (s + ("." + f))), "-:");
    WithoutJoins(h, ":" + (i + (":" + (s + ("." + f)))), "-:");
    WithoutJoins("T", h + (":" + (i + (":" + (s + ("." + f))))), "-:");
    WithoutJoins(d, "T" + (h + (":" + (i + (":" + (s + ("." + f)))))), "-:");
    WithoutJoins("-", d + ("T" + (h + (":" + (i + (":" + (s + ("." + f))))))), "-:");
    WithoutJoins(m, "-" + (d + ("T" + (h + (":" + (i + (":" + (s + ("." + f)))))))), "-:");
    WithoutJoins("-", m + ("-" + (d + ("T" + (h + (":" + (i + (":" + (s + ("." + f))))))))), "-:");
    WithoutJoins(y, "-" + (m + ("-" + (d + ("T" + (h + (":" + (i + (":" + (s + ("." + f)))))))))), "-:");
    assert Without(IsoString(t), "-:") == Stamp(n) + "." + f;
    SplitTakes(Stamp(n), f, "");
    assert "" + Stamp(n) == Stamp(n);
  }

  lemma StampLayout(n: Naive)
    requires IsCivil(n.date) && FourDigitYear(n.date) && 0 <= n.hour < 24 && 0 <= n.minute < 60 && 0 <= n.second < 60
    ensures |Stamp(n)| == 15 && Stamp(n)[8] == 'T' && '\n' !in Stamp(n)
    ensures Stamp(n)[..4] == NumberString(n.date.year) && Stamp(n)[4..6] == Pad(n.date.month) && Stamp(n)[6..8] == Pad(n.date.day)
    ensures Stamp(n)[9..11] == Pad(n.hour) && Stamp(n)[11..13] == Pad(n.minute) && Stamp(n)[13..] == Pad(n.second)
  {
    hide NumberString, Pad, TwoDigitsAt, TwoDigitValue, IsCivil, Without, Stamp;
    YearPrints(n.date.year);
    CivilBounds(n.date);
    PadPrints(n.date.month);
    PadPrints(n.date.day);
    PadPrints(n.hour);
    PadPrints(n.minute);
    PadPrints(n.second);
    StampPieces(n);
  }

  lemma StampPieces(n: Naive)
    requires IsCivil(n.date) && FourDigitYear(n.date) && 0 <= n.hour < 24 && 0 <= n.minute < 60 && 0 <= n.second < 60
    requires |NumberString(n.date.year)| == 4 && |Pad(n.date.month)| == |Pad(n.date.day)| == |Pad(n.hour)| == |Pad(n.minute)| == |Pad(n.second)| == 2
    requires Printable(NumberString(n.date.year)) && Printable(Pad(n.date.month)) && Printable(Pad(n.date.day))
    requires Printable(Pad(n.hour)) && Printable(Pad(n.minute)) && Printable(Pad(n.second))
    ensures |Stamp(n)| == 15 && Stamp(n)[8] == 'T' && '\n' !in Stamp(n)
    ensures Stamp(n)[..4] == NumberString(n.date.year) && Stamp(n)[4..6] == Pad(n.date.month) && Stamp(n)[6..8] == Pad(n.date.day)
    ensures Stamp(n)[9..11] == Pad(n.hour) && Stamp(n)[11..13] == Pad(n.minute) && Stamp(n)[13..] == Pad(n.second)
  {
    hide NumberString, Pad, IsCivil;
  }

  lemma CivilBounds(c: CivilDate)
    ensures IsCivil(c) ==> 1 <= c.month <= 12 && 1 <= c.day <= 31
  {
  }

  lemma StampReads(n: Naive)
    requires IsCivil(n.date) && FourDigitYear(n.date) && 0 <= n.hour < 24 && 0 <= n.minute < 60 && 0 <= n.second < 60
    ensures ReadIcsDate(Stamp(n) + "Z") == Some(UtcMs(n))
  {
    hide NumberString, Pad, UtcMs, Stamp, TwoDigitsAt, TwoDigitValue, IsCivil, Printable, Without;
    StampLayout(n);
    CivilBounds(n.date);
    var s, year := Stamp(n) + "Z", NumberString(n.date.year);
    YearPrints(n.date.year);
    assert s[..4] == Stamp(n)[..4];
    DigitsWithin(s, year, 0, 0);
    DigitsWithin(s, year, 0, 2);
    PadWithin(s, n.date.month, 4);
    PadWithin(s, n.date.day, 6);
    PadWithin(s, n.hour, 9);
    PadWithin(s, n.minute, 11);
    assert s[13..15] == Stamp(n)[13..];
    PadWithin(s, n.second, 13);
    assert n == Naive(CivilDate(100 * TwoDigitValue(s, 0) + TwoDigitValue(s, 2), n.date.month, n.date.day), n.hour, n.minute, n.second);
  }

  lemma PadWithin(s: string, n: int, from: nat)
    requires 0 <= n < 100 && from + 2 <= |s| && s[from..from + 2] == Pad(n)
    ensures TwoDigitsAt(s, from) && TwoDigitValue(s, from) == n
  {
    hide Pad, TwoDigitsAt, TwoDigitValue;
    PadPrints(n);
    DigitsWithin(s, Pad(n), from, 0);
  }

  /** A printed instant reads back to the second. */
  lemma IcsDateRoundTrip(t: int)
    requires FourDigitYear(FieldsOf(t).date)
    ensures ReadIcsDate(ToIcsDate(t)) == Some(t - t % 1000)
    ensures |ToIcsDate(t)| == 16 && '\n' !in ToIcsDate(t)
  {
    hide FieldsOf, UtcMs, ToIcsDate, Stamp, ReadIcsDate;
    var n := FieldsOf(t);
    StampOfIso(t);
    FieldsRoundTrip(t);
    StampLayout(n);
    StampReads(n);
  }

  // ---------------------------------------------------------------------------
  // The lines of an invite
  // ---------------------------------------------------------------------------

  datatype Method = REQUEST | CANCEL
  datatype Status = CONFIRMED | CANCELLED

  datatype Attendee = Attendee(name: Option<string>, email: string)

  datatype Event = Event(uid: string, start: int, end: int, summary: string, description: Option<string>,
    location: Option<string>, organizerName: Option<string>, organizerEmail: string, attendees: seq<Attendee>,
    way: Option<Method>, sequence: Option<int>, status: Option<Status>)

  /** A property with its parameters, and what its colon introduces. */
  datatype Property = Property(name: string, value: string)

  function Line(p: Property): string {
    p.name + ":" + p.value
  }

  function Lines(properties: seq<Property>): (r: seq<string>)
    ensures |r| == |properties| && forall i :: 0 <= i < |r| ==> r[i] == Line(properties[i])
  {
    if properties == [] then [] else [Line(properties[0])] + Lines(properties[1..])
  }

  predicate Present(s: Option<string>) {
    s.Some? && s.value != ""
  }

  function CommonName(name: Option<string>): string {
    if Present(name) then ";CN=" + EscapeText(name.value) else ""
  }

  function Role(): string {
    ";ROLE=REQ-PARTICIPANT" + ";PARTSTAT=NEEDS-ACTION" + ";RSVP=TRUE"
  }

  function AttendeeProperty(a: Attendee): Property {
    Property("ATTENDEE" + (CommonName(a.name) + Role()), "mailto:" + SanitizeMailto(a.email))
  }

  function AttendeeProperties(attendees: seq<Attendee>): (r: seq<Property>)
    ensures |r| == |attendees| && forall i :: 0 <= i < |r| ==> r[i] == AttendeeProperty(attendees[i])
  {
    if attendees == [] then [] else [AttendeeProperty(attendees[0])] + AttendeeProperties(attendees[1..])
  }

  function OptionalProperty(name: string, value: Option<string>): seq<Property> {
    if Present(value) then [Property(name, EscapeText(value.value))] else []
  }

  function MethodName(m: Option<Method>): string {
    if m == Some(CANCEL) then "CANCEL" else "REQUEST"
  }

  function StatusName(s: Option<Status>): string {
    if s == Some(CANCELLED) then "CANCELLED" else "CONFIRMED"
  }

  function Product(): Property {
    Property("PRODID", "-//RecDesk//" + "Interview Scheduling" + "//EN")
  }

  function Head(e: Event): seq<Property> {
    [Property("BEGIN", "VCALENDAR"), Property("VERSION", "2.0"), Product(), Property("CALSCALE", "GREGORIAN"),
      Property("METHOD", MethodName(e.way)), Property("BEGIN", "VEVENT")]
  }

  function Body(e: Event, now: int): seq<Property> {
    [Property("UID", e.uid), Property("DTSTAMP", ToIcsDate(now)), Property("DTSTART", ToIcsDate(e.start)),
      Property("DTEND", ToIcsDate(e.end)), Property("SUMMARY", EscapeText(e.summary))]
  }

  function Opening(e: Event, now: int): seq<Property> {
    Head(e) + Body(e, now)
  }

  function Organizer(e: Event): Property {
    Property("ORGANIZER" + CommonName(e.organizerName), "mailto:" + SanitizeMailto(e.organizerEmail))
  }

  function Closing(e: Event): seq<Property> {
    [Property("SEQUENCE", NumberString(if e.sequence.Some? then e.sequence.value else 0)),
      Property("STATUS", StatusName(e.status)), Property("END", "VEVENT"), Property("END", "VCALENDAR")]
  }

  function Ending(e: Event): seq<Property> {
    [Organizer(e)] + AttendeeProperties(e.attendees) + Closing(e)
  }

  function Properties(e: Event, now: int): seq<Property> {
    Opening(e, now) + OptionalProperty("DESCRIPTION", e.description) + OptionalProperty("LOCATION", e.location)
      + Ending(e)
  }

  function BuildIcs(e: Event, now: int): string {
    assert Lines(Properties(e, now)) != [];
    Join(FoldTexts(Lines(Properties(e, now))), CRLF)
  }

  /** Unfolding, then splitting at line breaks. */
  function ReadLines(text: string): seq<string> {
    Split(Unfold(text), CRLF, "")
  }

  ghost predicate Dated(e: Event, now: int) {
    FourDigitYear(FieldsOf(now).date) && FourDigitYear(FieldsOf(e.start).date) && FourDigitYear(FieldsOf(e.end).date)
  }

  // ---------------------------------------------------------------------------
  // No field adds a line
  // ---------------------------------------------------------------------------

  predicate Plain(p: Property) {
    p.name != "" && p.name[0] != ' ' && '\n' !in p.name && '\n' !in p.value
  }

  lemma {:induction false} NumberIsPlain(n: int)
    ensures '\n' !in NumberString(n)
    decreases if n < 0 then 1 - n else n
  {
    if n < 0 { NumberIsPlain(-n); } else if n >= 10 { NumberIsPlain(n / 10); }
  }

  lemma OptionalIsPlain(name: string, value: Option<string>)
    requires Plain(Property(name, ""))
    ensures forall i :: 0 <= i < |OptionalProperty(name, value)| ==> Plain(OptionalProperty(name, value)[i])
  {
    hide EscapeText;
    if value.Some? { EscapeRoundTrip(value.value); }
  }

  lemma NameIsPlain(name: Option<string>)
    ensures '\n' !in CommonName(name)
  {
    hide EscapeText;
    if name.Some? { EscapeRoundTrip(name.value); }
  }

  lemma PlainJoins(a: string, b: string, value: string)
    requires a != "" && a[0] != ' ' && '\n' !in a && '\n' !in b && '\n' !in value
    ensures Plain(Property(a + b, "mailto:" + value))
    ensures (a + b)[0] == a[0]
  {
  }

  lemma RoleIsPlain()
    ensures '\n' !in Role()
  {
  }

  lemma AttendeeIsPlain(a: Attendee)
    ensures Plain(AttendeeProperty(a)) && AttendeeProperty(a).name != "" && AttendeeProperty(a).name[0] == 'A'
  {
    hide CommonName, SanitizeMailto, Plain, Role;
    NameIsPlain(a.name);
    var rest := Role();
    RoleIsPlain();
    assert '\n' in SanitizeMailto(a.email) ==> '\n' !in CRLF;
    PlainJoins("ATTENDEE", CommonName(a.name) + rest, SanitizeMailto(a.email));
  }

  lemma OrganizerIsPlain(e: Event)
    ensures Plain(Organizer(e)) && Organizer(e).name != "" && Organizer(e).name[0] == 'O'
  {
    hide CommonName, SanitizeMailto, Plain;
    NameIsPlain(e.organizerName);
    assert '\n' in SanitizeMailto(e.organizerEmail) ==> '\n' !in CRLF;
    PlainJoins("ORGANIZER", CommonName(e.organizerName), SanitizeMailto(e.organizerEmail));
  }

  lemma ClosingIsPlain(e: Event)
    ensures forall i :: 0 <= i < |Closing(e)| ==> Plain(Closing(e)[i]) && Closing(e)[i].name != "" && Closing(e)[i].name[0] in "SE"
  {
    hide NumberString;
    NumberIsPlain(if e.sequence.Some? then e.sequence.value else 0);
  }

  lemma ProductIsPlain()
    ensures Plain(Product())
  {
  }

  lemma HeadIsPlain(e: Event)
    ensures |Head(e)| == 6 && forall i :: 0 <= i < 6 ==> Plain(Head(e)[i])
  {
    hide Product;
    ProductIsPlain();
  }

  lemma BodyIsPlain(e: Event, now: int)
    requires Dated(e, now)
    ensures |Body(e, now)| == 5 && Body(e, now)[0] == Property("UID", e.uid) && forall i :: 1 <= i < 5 ==> Plain(Body(e, now)[i])
  {
    hide EscapeText, ToIcsDate, FieldsOf;
    EscapeRoundTrip(e.summary);
    IcsDateRoundTrip(now);
    IcsDateRoundTrip(e.start);
    IcsDateRoundTrip(e.end);
  }

  lemma EndingIsPlain(e: Event)
    ensures forall i :: 0 <= i < |Ending(e)| ==> Plain(Ending(e)[i]) && Ending(e)[i].name != "" && Ending(e)[i].name[0] in "OASE"
  {
    hide Organizer, AttendeeProperty, Closing, Plain;
    var a := AttendeeProperties(e.attendees);
    OrganizerIsPlain(e);
    forall i | 0 <= i < |a| ensures Plain(a[i]) && a[i].name != "" && a[i].name[0] == 'A' {
      AttendeeIsPlain(e.attendees[i]);
    }
    ClosingIsPlain(e);
  }

  /** Every property but the uid is free of line feeds, whatever the fields hold. */
  lemma PropertiesArePlain(e: Event, now: int)
    requires Dated(e, now)
    ensures |Properties(e, now)| >= 11 && Properties(e, now)[6] == Property("UID", e.uid)
    ensures forall i :: 0 <= i < |Properties(e, now)| ==> i != 6 ==> Plain(Properties(e, now)[i])
  {
    hide Head, Body, OptionalProperty, Ending, Plain, FieldsOf;
    HeadIsPlain(e);
    BodyIsPlain(e, now);
    assert Plain(Property("DESCRIPTION", "")) && Plain(Property("LOCATION", "")) by { NamesArePlain(); }
    OptionalIsPlain("DESCRIPTION", e.description);
    OptionalIsPlain("LOCATION", e.location);
    EndingIsPlain(e);
    var o := Opening(e, now);
    assert forall i :: 0 <= i < 6 ==> o[i] == Head(e)[i];
    assert forall i :: 6 <= i < 11 ==> o[i] == Body(e, now)[i - 6];
    assert |o| == 11 && Properties(e, now)[..11] == o;
  }

  lemma NamesArePlain()
    ensures Plain(Property("DESCRIPTION", "")) && Plain(Property("LOCATION", ""))
  {
    var d, l := "DESCRIPTION", "LOCATION";
    assert d[0] == 'D' && l[0] == 'L' && '\n' !in d && '\n' !in l;
  }

  lemma LineIsPlain(p: Property)
    requires Plain(p)
    ensures OneLine(Line(p)) && Line(p) != "" && Line(p)[0] == p.name[0]
  {
    NoFeedIsOneLine(Line(p));
  }

  lemma UidLine(uid: string)
    ensures var line := Line(Property("UID", uid)); line != "" && line[0] == 'U' && (OneLine(line) <==> OneLine(uid))
  {
    var line := Line(Property("UID", uid));
    assert line == "UID:" + uid && uid + "" == uid;
    ClearJoins("UID:", uid, "");
    var u := "UID:";
    assert u[1..] == "ID:" && u[1..][1..] == "D:" && u[1..][1..][1..] == ":";
    assert (u + uid)[0] == 'U' && ("ID:" + uid)[0] == 'I' && ("D:" + uid)[0] == 'D' && (":" + uid)[0] == ':';
    assert Clear(":", uid) by { assert ":"[1..] == ""; }
    assert Clear("D:", uid);
    assert Clear("ID:", uid);
  }

  /**
   * Unfolding and splitting an invite gives exactly its logical lines, so that no
   * field adds a line of its own, exactly when the uid holds no line break.
   */
  lemma InviteRoundTrip(e: Event, now: int)
    requires Dated(e, now)
    ensures ReadLines(BuildIcs(e, now)) == Lines(Properties(e, now)) <==> OneLine(e.uid)
    ensures OneLine(e.uid) ==> forall p :: p in Split(BuildIcs(e, now), CRLF, "") ==> |p| <= 75
  {
    hide Properties, FoldTexts, Unfold, OneLine, Line, Plain, Split;
    var ps := Properties(e, now);
    var lines := Lines(ps);
    PropertiesArePlain(e, now);
    UidLine(e.uid);
    forall i | 0 <= i < |lines| ensures lines[i] != "" && lines[i][0] != ' ' && (i != 6 ==> OneLine(lines[i])) {
      if i != 6 {
        LineIsPlain(ps[i]);
        assert ps[i].name[0] != ' ' by { NoSpace(ps[i]); }
      }
    }
    if OneLine(e.uid) {
      DocumentRoundTrip(lines);
    } else {
      assert Clear("", Unfold(BuildIcs(e, now)));
      PiecesAreLines(Unfold(BuildIcs(e, now)), "");
    }
  }

  lemma NoSpace(p: Property)
    requires Plain(p)
    ensures p.name != "" && p.name[0] != ' '
  {
  }

  // ---------------------------------------------------------------------------
  // Reading fields
  // ---------------------------------------------------------------------------

  /** The value on the first line that starts with `name` and a colon. */
  function Find(lines: seq<string>, name: string): Option<string> {
    if lines == [] then None
    else if name + ":" <= lines[0] then Some(lines[0][|name| + 1..])
    else Find(lines[1..], name)
  }

  function TextField(lines: seq<string>, name: string): Option<string> {
    var f := Find(lines, name);
    if f.Some? then ReadText(f.value) else None
  }

  function DateField(lines: seq<string>, name: string): Option<int> {
    var f := Find(lines, name);
    if f.Some? then ReadIcsDate(f.value) else None
  }

  /** The names differ from `name` at the positions `at`. */
  ghost predicate Apart(ps: seq<Property>, name: string, at: seq<nat>) {
    |at| == |ps| && forall i :: 0 <= i < |ps| ==> at[i] < |name| && at[i] < |ps[i].name| && ps[i].name[at[i]] != name[at[i]]
  }

  lemma {:induction false} FindSkips(ps: seq<Property>, rest: seq<Property>, name: string, at: seq<nat>)
    requires Apart(ps, name, at)
    ensures Find(Lines(ps + rest), name) == Find(Lines(rest), name)
    decreases |ps|
  {
    if ps == [] {
      assert ps + rest == rest;
    } else {
      assert (ps + rest)[1..] == ps[1..] + rest && (ps + rest)[0] == ps[0];
      FindSkips(ps[1..], rest, name, at[1..]);
      var line, k := Line(ps[0]), at[0];
      assert line[k] == ps[0].name[k] && (name + ":")[k] == name[k];
      assert Lines(ps + rest)[1..] == Lines(ps[1..] + rest);
    }
  }

  lemma FindHere(ps: seq<Property>, name: string, value: string, rest: seq<Property>, at: seq<nat>)
    requires Apart(ps, name, at)
    ensures Find(Lines(ps + ([Property(name, value)] + rest)), name) == Some(value)
  {
    hide Apart;
    FindSkips(ps, [Property(name, value)] + rest, name, at);
    assert Lines([Property(name, value)] + rest)[0] == name + ":" + value;
    assert (name + ":" + value)[|name| + 1..] == value;
  }

  lemma FindOptional(ps: seq<Property>, name: string, value: Option<string>, rest: seq<Property>, at: seq<nat>, after: seq<nat>)
    requires Apart(ps, name, at) && Apart(rest, name, after)
    ensures Find(Lines(ps + (OptionalProperty(name, value) + rest)), name) == if Present(value) then Some(EscapeText(value.value)) else None
  {
    hide Apart, EscapeText;
    if Present(value) {
      FindHere(ps, name, EscapeText(value.value), rest, at);
    } else {
      assert OptionalProperty(name, value) + rest == rest && rest + [] == rest;
      FindSkips(ps, rest, name, at);
      FindSkips(rest, [], name, after);
    }
  }

  lemma OpeningNames(e: Event, now: int)
    ensures var o := Opening(e, now);
      && |o| == 11
      && Apart(o[..10], "SUMMARY", [0, 0, 0, 0, 0, 0, 0, 0, 0, 0]) && Apart(o[..9], "DTEND", [0, 0, 0, 0, 0, 0, 0, 2, 2])
      && Apart(o[..8], "DTSTART", [0, 0, 0, 0, 0, 0, 0, 5]) && Apart(o[..6], "UID", [0, 0, 0, 0, 0, 0])
  {
    hide EscapeText, ToIcsDate, MethodName, Product;
    ProductName();
  }

  lemma OptionalAreOther(e: Event, now: int)
    ensures Apart(Opening(e, now), "DESCRIPTION", [0, 0, 0, 0, 0, 0, 0, 1, 1, 1, 0])
    ensures Apart(Opening(e, now), "LOCATION", [0, 0, 0, 0, 0, 0, 0, 0, 0, 0, 0])
  {
    hide EscapeText, ToIcsDate, MethodName, Product;
    ProductName();
  }

  lemma ProductName()
    ensures Product().name == "PRODID"
  {
  }

  lemma OpeningFields(e: Event, now: int, rest: seq<Property>)
    ensures var lines := Lines(Opening(e, now) + rest);
      && Find(lines, "SUMMARY") == Some(EscapeText(e.summary))
      && Find(lines, "DTSTART") == Some(ToIcsDate(e.start))
      && Find(lines, "DTEND") == Some(ToIcsDate(e.end))
      && Find(lines, "UID") == Some(e.uid)
  {
    hide EscapeText, ToIcsDate, Find, Apart, Lines, MethodName;
    var o := Opening(e, now);
    OpeningNames(e, now);
    FindHere(o[..10], "SUMMARY", EscapeText(e.summary), rest, [0, 0, 0, 0, 0, 0, 0, 0, 0, 0]);
    FindHere(o[..9], "DTEND", ToIcsDate(e.end), o[10..] + rest, [0, 0, 0, 0, 0, 0, 0, 2, 2]);
    FindHere(o[..8], "DTSTART", ToIcsDate(e.start), o[9..] + rest, [0, 0, 0, 0, 0, 0, 0, 5]);
    FindHere(o[..6], "UID", e.uid, o[7..] + rest, [0, 0, 0, 0, 0, 0]);
    assert o + rest == o[..10] + ([o[10]] + rest);
    assert o + rest == o[..9] + ([o[9]] + (o[10..] + rest));
    assert o + rest == o[..8] + ([o[8]] + (o[9..] + rest));
    assert o + rest == o[..6] + ([o[6]] + (o[7..] + rest));
  }

  function Zeros(n: nat): (r: seq<nat>)
    ensures |r| == n && forall i :: 0 <= i < n ==> r[i] == 0
  {
    if n == 0 then [] else [0] + Zeros(n - 1)
  }

  lemma FirstDiffers(ps: seq<Property>, name: string)
    requires name != "" && forall i :: 0 <= i < |ps| ==> ps[i].name != "" && ps[i].name[0] != name[0]
    ensures Apart(ps, name, Zeros(|ps|))
  {
  }

  lemma OptionalNames(e: Event)
    ensures var l := OptionalProperty("LOCATION", e.location);
      && Apart(Ending(e), "LOCATION", Zeros(|Ending(e)|)) && Apart(l + Ending(e), "DESCRIPTION", Zeros(|l + Ending(e)|))
  {
    hide EscapeText, Ending, Apart, Plain;
    EndingIsPlain(e);
    assert "DESCRIPTION"[0] == 'D' && "LOCATION"[0] == 'L';
    FirstDiffers(Ending(e), "LOCATION");
    FirstDiffers(OptionalProperty("LOCATION", e.location) + Ending(e), "DESCRIPTION");
  }

  lemma OptionalFields(e: Event, now: int)
    ensures var lines := Lines(Properties(e, now));
      && Find(lines, "DESCRIPTION") == (if Present(e.description) then Some(EscapeText(e.description.value)) else None)
      && Find(lines, "LOCATION") == (if Present(e.location) then Some(EscapeText(e.location.value)) else None)
  {
    hide EscapeText, ToIcsDate, Find, Opening, Ending, Lines, Apart;
    var o, d, l := Opening(e, now), OptionalProperty("DESCRIPTION", e.description), OptionalProperty("LOCATION", e.location);
    var b := Ending(e);
    OptionalNames(e);
    OptionalAreOther(e, now);
    ApartJoins(o, d, "LOCATION", [0, 0, 0, 0, 0, 0, 0, 0, 0, 0, 0]);
    assert Properties(e, now) == o + (d + (l + b));
    assert Properties(e, now) == (o + d) + (l + b);
    FindOptional(o, "DESCRIPTION", e.description, l + b, [0, 0, 0, 0, 0, 0, 0, 1, 1, 1, 0], Zeros(|l + b|));
    FindOptional(o + d, "LOCATION", e.location, b, [0, 0, 0, 0, 0, 0, 0, 0, 0, 0, 0] + Zeros(|d|), Zeros(|b|));
  }

  lemma ApartJoins(a: seq<Property>, b: seq<Property>, name: string, at: seq<nat>)
    requires Apart(a, name, at)
    requires name != "" && forall i :: 0 <= i < |b| ==> b[i].name != "" && b[i].name[0] != name[0]
    ensures Apart(a + b, name, at + Zeros(|b|))
  {
  }

  lemma LinesReadBack(e: Event, now: int)
    ensures var lines := Lines(Properties(e, now));
      && Find(lines, "UID") == Some(e.uid)
      && Find(lines, "SUMMARY") == Some(EscapeText(e.summary))
      && Find(lines, "DTSTART") == Some(ToIcsDate(e.start))
      && Find(lines, "DTEND") == Some(ToIcsDate(e.end))
  {
    hide Opening, EscapeText, ToIcsDate, Find, Lines, Ending, OptionalProperty;
    var rest := OptionalProperty("DESCRIPTION", e.description) + OptionalProperty("LOCATION", e.location) + Ending(e);
    assert Properties(e, now) == Opening(e, now) + rest;
    OpeningFields(e, now, rest);
  }

  lemma HeadFields(e: Event, now: int)
    ensures Find(Lines(Properties(e, now)), "METHOD") == Some(MethodName(e.way))
  {
    hide Body, Find, Ending, OptionalProperty, MethodName, Product, Apart, Lines;
    var h := Head(e);
    var rest := h[5..] + (Body(e, now) + (OptionalProperty("DESCRIPTION", e.description) + (OptionalProperty("LOCATION", e.location) + Ending(e))));
    HeadNames(e);
    FindHere(h[..4], "METHOD", MethodName(e.way), rest, [0, 0, 0, 0]);
    assert Properties(e, now) == h[..4] + ([h[4]] + rest);
  }

  lemma HeadNames(e: Event)
    ensures Apart(Head(e)[..4], "METHOD", [0, 0, 0, 0])
  {
    hide MethodName, Product;
    ProductName();
  }

  /** All properties before the closing ones. */
  function Before(e: Event, now: int): seq<Property> {
    Opening(e, now) + Middle(e)
  }

  lemma OpeningIsOther(e: Event, now: int)
    ensures Apart(Opening(e, now), "SEQUENCE", [0, 0, 0, 0, 0, 0, 0, 0, 0, 0, 1])
    ensures Apart(Opening(e, now), "STATUS", [0, 0, 0, 0, 0, 0, 0, 0, 0, 0, 1])
  {
    hide EscapeText, ToIcsDate, MethodName, Product;
    ProductName();
  }

  /** The optional properties, the organizer and the attendees. */
  function Middle(e: Event): seq<Property> {
    OptionalProperty("DESCRIPTION", e.description) + OptionalProperty("LOCATION", e.location)
      + ([Organizer(e)] + AttendeeProperties(e.attendees))
  }

  lemma MiddleNames(e: Event)
    ensures forall i :: 0 <= i < |Middle(e)| ==> Middle(e)[i].name != "" && Middle(e)[i].name[0] in "DLOA"
  {
    hide EscapeText, Organizer, AttendeeProperty;
    OrganizerIsPlain(e);
    forall i | 0 <= i < |e.attendees| ensures AttendeeProperties(e.attendees)[i].name != "" && AttendeeProperties(e.attendees)[i].name[0] == 'A' {
      AttendeeIsPlain(e.attendees[i]);
    }
    assert "DESCRIPTION"[0] == 'D' && "LOCATION"[0] == 'L';
  }

  lemma BeforeIsOther(e: Event, now: int) returns (at: seq<nat>)
    ensures Apart(Before(e, now), "SEQUENCE", at) && Apart(Before(e, now), "STATUS", at)
  {
    hide Opening, Middle, Apart;
    MiddleNames(e);
    assert "SEQUENCE"[0] == 'S' && "STATUS"[0] == 'S';
    OpeningIsOther(e, now);
    ApartJoins(Opening(e, now), Middle(e), "SEQUENCE", [0, 0, 0, 0, 0, 0, 0, 0, 0, 0, 1]);
    ApartJoins(Opening(e, now), Middle(e), "STATUS", [0, 0, 0, 0, 0, 0, 0, 0, 0, 0, 1]);
    at := [0, 0, 0, 0, 0, 0, 0, 0, 0, 0, 1] + Zeros(|Middle(e)|);
  }

  lemma ClosingFields(e: Event, now: int)
    ensures Find(Lines(Properties(e, now)), "SEQUENCE") == Some(NumberString(if e.sequence.Some? then e.sequence.value else 0))
    ensures Find(Lines(Properties(e, now)), "STATUS") == Some(StatusName(e.status))
  {
    hide Before, Find, NumberString, StatusName, Apart, Lines;
    var c, b := Closing(e), Before(e, now);
    var at := BeforeIsOther(e, now);
    FindHere(b, "SEQUENCE", c[0].value, c[1..], at);
    assert Apart([c[0]], "STATUS", [1]) by { SequenceIsNotStatus(c[0]); }
    ApartFollows(b, [c[0]], "STATUS", at, [1]);
    FindHere(b + [c[0]], "STATUS", c[1].value, c[2..], at + [1]);
    assert Properties(e, now) == b + c by { PropertiesEnd(e, now); }
    assert b + c == b + ([c[0]] + c[1..]);
    assert b + c == b + [c[0]] + ([c[1]] + c[2..]);
  }

  lemma PropertiesEnd(e: Event, now: int)
    ensures Properties(e, now) == Before(e, now) + Closing(e)
  {
    hide Opening, OptionalProperty, Organizer, AttendeeProperties, Closing;
  }

  lemma SequenceIsNotStatus(p: Property)
    requires p.name == "SEQUENCE"
    ensures Apart([p], "STATUS", [1])
  {
  }

  lemma ApartFollows(a: seq<Property>, b: seq<Property>, name: string, at: seq<nat>, more: seq<nat>)
    requires Apart(a, name, at) && Apart(b, name, more)
    ensures Apart(a + b, name, at + more)
  {
  }

  lemma OptionalReadsBack(lines: seq<string>, name: string, value: Option<string>)
    requires Find(lines, name) == if Present(value) then Some(EscapeText(value.value)) else None
    ensures IsTextOf(TextField(lines, name), value)
  {
    hide EscapeText, ReadText, Find, Normalise;
    if value.Some? { EscapeRoundTrip(value.value); }
  }

  // ---------------------------------------------------------------------------
  // People
  // ---------------------------------------------------------------------------

  /** The lines that start with `name`, in order. */
  function Starting(lines: seq<string>, name: string): seq<string> {
    if lines == [] then [] else (if name <= lines[0] then [lines[0]] else []) + Starting(lines[1..], name)
  }

  lemma {:induction false} StartingJoins(a: seq<string>, b: seq<string>, name: string)
    ensures Starting(a + b, name) == Starting(a, name) + Starting(b, name)
    decreases |a|
  {
    if a == [] {
      assert a + b == b;
    } else {
      assert (a + b)[1..] == a[1..] + b;
      StartingJoins(a[1..], b, name);
    }
  }

  lemma {:induction false} LinesJoin(a: seq<Property>, b: seq<Property>)
    ensures Lines(a + b) == Lines(a) + Lines(b)
    decreases |a|
  {
    if a == [] {
      assert a + b == b;
    } else {
      assert (a + b)[1..] == a[1..] + b;
      LinesJoin(a[1..], b);
    }
  }

  /** None, or all, of the properties start with `name`. */
  lemma {:induction false} StartingNone(ps: seq<Property>, name: string)
    requires name != "" && forall i :: 0 <= i < |ps| ==> ps[i].name != "" && ps[i].name[0] != name[0]
    ensures Starting(Lines(ps), name) == []
    decreases |ps|
  {
    if ps != [] {
      assert Line(ps[0])[0] == ps[0].name[0];
      StartingNone(ps[1..], name);
    }
  }

  lemma {:induction false} StartingAll(ps: seq<Property>, name: string)
    requires forall i :: 0 <= i < |ps| ==> name <= ps[i].name
    ensures Starting(Lines(ps), name) == Lines(ps)
    decreases |ps|
  {
    if ps != [] {
      assert name <= Line(ps[0]);
      StartingAll(ps[1..], name);
    }
  }

  ghost predicate StartsUnlike(ps: seq<Property>, c: char) {
    forall i :: 0 <= i < |ps| ==> ps[i].name != "" && ps[i].name[0] != c
  }

  ghost predicate StartsLike(ps: seq<Property>, name: string) {
    forall i :: 0 <= i < |ps| ==> name <= ps[i].name
  }

  /** Properties before, of, and after a kind of line. */
  lemma StartingMiddle(a: seq<Property>, b: seq<Property>, c: seq<Property>, name: string)
    requires name != "" && StartsUnlike(a, name[0]) && StartsLike(b, name) && StartsUnlike(c, name[0])
    ensures Starting(Lines(a + (b + c)), name) == Lines(b)
  {
    hide Starting, Lines;
    LinesJoin(a, b + c);
    LinesJoin(b, c);
    StartingJoins(Lines(a), Lines(b) + Lines(c), name);
    StartingJoins(Lines(b), Lines(c), name);
    StartingNone(a, name);
    StartingAll(b, name);
    StartingNone(c, name);
  }

  lemma UnlikeJoins(a: seq<Property>, b: seq<Property>, c: char)
    requires StartsUnlike(a, c) && StartsUnlike(b, c)
    ensures StartsUnlike(a + b, c)
  {
  }

  /** `parameter` gives the name of a person, if there is one. */
  ghost predicate Names(parameter: string, name: Option<string>) {
    if name.None? || name.value == "" then parameter == ""
    else exists text :: parameter == ";CN=" + text && ReadText(text) == Some(Normalise(name.value))
  }

  lemma CommonNameNames(name: Option<string>)
    ensures Names(CommonName(name), name)
  {
    hide EscapeText, ReadText, Normalise;
    if Present(name) { EscapeRoundTrip(name.value); }
  }

  ghost predicate IsOrganizerLine(line: string, e: Event) {
    exists cn :: Names(cn, e.organizerName) && line == "ORGANIZER" + cn + ":" + ("mailto:" + SanitizeMailto(e.organizerEmail))
  }

  ghost predicate IsAttendeeLine(line: string, a: Attendee) {
    exists cn :: Names(cn, a.name) && line == "ATTENDEE" + (cn + (";ROLE=REQ-PARTICIPANT" + ";PARTSTAT=NEEDS-ACTION" + ";RSVP=TRUE"))
      + ":" + ("mailto:" + SanitizeMailto(a.email))
  }

  lemma OpeningIsUnlike(e: Event, now: int, c: char)
    requires c == 'A' || c == 'O'
    ensures StartsUnlike(Opening(e, now), c)
  {
    hide EscapeText, ToIcsDate, MethodName, Product;
    ProductName();
  }

  lemma OptionalIsUnlike(e: Event, c: char)
    requires c == 'A' || c == 'O'
    ensures StartsUnlike(OptionalProperty("DESCRIPTION", e.description) + OptionalProperty("LOCATION", e.location), c)
  {
    hide EscapeText;
    assert "DESCRIPTION"[0] == 'D' && "LOCATION"[0] == 'L';
  }

  lemma ClosingIsUnlike(e: Event, c: char)
    requires c == 'A' || c == 'O'
    ensures StartsUnlike(Closing(e), c)
  {
    hide NumberString;
  }

  /** The properties before the organizer. */
  function Front(e: Event, now: int): seq<Property> {
    Opening(e, now) + (OptionalProperty("DESCRIPTION", e.description) + OptionalProperty("LOCATION", e.location))
  }

  lemma FrontIsUnlike(e: Event, now: int, c: char)
    requires c == 'A' || c == 'O'
    ensures StartsUnlike(Front(e, now), c)
  {
    hide Opening, OptionalProperty, StartsUnlike;
    OpeningIsUnlike(e, now, c);
    OptionalIsUnlike(e, c);
    UnlikeJoins(Opening(e, now), OptionalProperty("DESCRIPTION", e.description) + OptionalProperty("LOCATION", e.location), c);
  }

  lemma PropertiesAround(e: Event, now: int)
    ensures Properties(e, now) == Front(e, now) + ([Organizer(e)] + (AttendeeProperties(e.attendees) + Closing(e)))
    ensures Properties(e, now) == (Front(e, now) + [Organizer(e)]) + (AttendeeProperties(e.attendees) + Closing(e))
  {
    hide Opening, OptionalProperty, Organizer, AttendeeProperties, Closing;
  }

  lemma OrganizerReadsBack(e: Event, now: int)
    ensures Starting(Lines(Properties(e, now)), "ORGANIZER") == [Line(Organizer(e))] && IsOrganizerLine(Line(Organizer(e)), e)
  {
    hide Front, Closing, CommonName, Starting, SanitizeMailto, Names, AttendeeProperty, StartsUnlike, Properties;
    var a := AttendeeProperties(e.attendees);
    assert "ORGANIZER"[0] == 'O';
    FrontIsUnlike(e, now, 'O');
    AttendeesStart(e.attendees);
    ClosingIsUnlike(e, 'O');
    UnlikeJoins(a, Closing(e), 'O');
    StartingMiddle(Front(e, now), [Organizer(e)], a + Closing(e), "ORGANIZER");
    PropertiesAround(e, now);
    assert Lines([Organizer(e)]) == [Line(Organizer(e))];
    CommonNameNames(e.organizerName);
  }

  lemma AttendeesStart(attendees: seq<Attendee>)
    ensures StartsUnlike(AttendeeProperties(attendees), 'O') && StartsLike(AttendeeProperties(attendees), "ATTENDEE")
  {
    hide CommonName, SanitizeMailto, Role;
    assert "ATTENDEE"[0] == 'A';
  }

  lemma AttendeeReadsBack(a: Attendee)
    ensures IsAttendeeLine(Line(AttendeeProperty(a)), a)
  {
    hide CommonName, SanitizeMailto, Names;
    CommonNameNames(a.name);
  }

  lemma OrganizerIsUnlike(e: Event)
    ensures StartsUnlike([Organizer(e)], 'A')
  {
    OrganizerIsPlain(e);
  }

  lemma AttendeesReadBack(e: Event, now: int)
    ensures var lines := Starting(Lines(Properties(e, now)), "ATTENDEE");
      |lines| == |e.attendees| && forall i :: 0 <= i < |lines| ==> IsAttendeeLine(lines[i], e.attendees[i])
  {
    hide Front, Organizer, Closing, Starting, AttendeeProperty, IsAttendeeLine, StartsUnlike, StartsLike, Properties;
    var a := AttendeeProperties(e.attendees);
    assert "ATTENDEE"[0] == 'A';
    FrontIsUnlike(e, now, 'A');
    OrganizerIsUnlike(e);
    UnlikeJoins(Front(e, now), [Organizer(e)], 'A');
    AttendeesStart(e.attendees);
    ClosingIsUnlike(e, 'A');
    StartingMiddle(Front(e, now) + [Organizer(e)], a, Closing(e), "ATTENDEE");
    PropertiesAround(e, now);
    forall i | 0 <= i < |a| ensures IsAttendeeLine(Lines(a)[i], e.attendees[i]) {
      AttendeeReadsBack(e.attendees[i]);
    }
  }

  lemma StampReadsBack(e: Event, now: int)
    ensures Find(Lines(Properties(e, now)), "DTSTAMP") == Some(ToIcsDate(now))
  {
    hide Opening, EscapeText, ToIcsDate, Find, Ending, OptionalProperty, Apart, Lines;
    var o := Opening(e, now);
    var rest := OptionalProperty("DESCRIPTION", e.description) + OptionalProperty("LOCATION", e.location) + Ending(e);
    StampNames(e, now);
    FindHere(o[..7], "DTSTAMP", ToIcsDate(now), o[8..] + rest, [0, 0, 0, 0, 0, 0, 0]);
    assert Properties(e, now) == o[..7] + ([o[7]] + (o[8..] + rest));
  }

  lemma StampNames(e: Event, now: int)
    ensures |Opening(e, now)| == 11 && Opening(e, now)[7] == Property("DTSTAMP", ToIcsDate(now))
    ensures Apart(Opening(e, now)[..7], "DTSTAMP", [0, 0, 0, 0, 0, 0, 0])
  {
    hide EscapeText, ToIcsDate, MethodName, Product;
    ProductName();
  }

  /** One event of version 2.0, between its first and last lines. */
  ghost predicate IsFramed(lines: seq<string>) {
    && |lines| > 8 && lines[0] == "BEGIN:VCALENDAR" && lines[1] == "VERSION:2.0" && lines[5] == "BEGIN:VEVENT"
    && lines[|lines| - 2] == "END:VEVENT" && lines[|lines| - 1] == "END:VCALENDAR"
  }

  lemma LinesAreFramed(e: Event, now: int)
    ensures IsFramed(Lines(Properties(e, now)))
  {
    hide Body, OptionalProperty, Organizer, AttendeeProperties, Closing, Head, Lines;
    HeadFrames(e);
    ClosingFrames(e);
    BodySize(e, now);
    var ps := Properties(e, now);
    assert ps[0] == Head(e)[0] && ps[1] == Head(e)[1] && ps[5] == Head(e)[5];
    assert ps[|ps| - 2] == Closing(e)[2] && ps[|ps| - 1] == Closing(e)[3];
  }

  lemma HeadFrames(e: Event)
    ensures |Head(e)| == 6 && Line(Head(e)[0]) == "BEGIN:VCALENDAR" && Line(Head(e)[1]) == "VERSION:2.0" && Line(Head(e)[5]) == "BEGIN:VEVENT"
  {
    hide MethodName, Product;
  }

  lemma ClosingFrames(e: Event)
    ensures |Closing(e)| == 4 && Line(Closing(e)[2]) == "END:VEVENT" && Line(Closing(e)[3]) == "END:VCALENDAR"
  {
    hide NumberString, StatusName;
  }

  lemma BodySize(e: Event, now: int)
    ensures |Body(e, now)| == 5
  {
  }

  function NumberField(lines: seq<string>, name: string): Option<int> {
    var f := Find(lines, name);
    if f.Some? then ReadNumber(f.value) else None
  }

  /** The text of an optional field, if it is given and not empty. */
  ghost predicate IsTextOf(read: Option<string>, given: Option<string>) {
    read == if given.Some? && given.value != "" then Some(Normalise(given.value)) else None
  }

  /** What a reader finds on the lines of an invite printed at `now` is what the event holds. */
  ghost predicate ReadsAs(lines: seq<string>, e: Event, now: int) {
    && IsFramed(lines)
    && Find(lines, "METHOD") == Some(if e.way == Some(CANCEL) then "CANCEL" else "REQUEST")
    && Find(lines, "UID") == Some(e.uid)
    && DateField(lines, "DTSTAMP") == Some(now - now % 1000)
    && DateField(lines, "DTSTART") == Some(e.start - e.start % 1000)
    && DateField(lines, "DTEND") == Some(e.end - e.end % 1000)
    && TextField(lines, "SUMMARY") == Some(Normalise(e.summary))
    && IsTextOf(TextField(lines, "DESCRIPTION"), e.description)
    && IsTextOf(TextField(lines, "LOCATION"), e.location)
    && NumberField(lines, "SEQUENCE") == Some(if e.sequence.Some? then e.sequence.value else 0)
    && Find(lines, "STATUS") == Some(if e.status == Some(CANCELLED) then "CANCELLED" else "CONFIRMED")
    && (var organizers := Starting(lines, "ORGANIZER"); |organizers| == 1 && IsOrganizerLine(organizers[0], e))
    && (var attendees := Starting(lines, "ATTENDEE");
        |attendees| == |e.attendees| && forall i :: 0 <= i < |attendees| ==> IsAttendeeLine(attendees[i], e.attendees[i]))
  }

  /** A reader of the printed invite finds the fields of the event. */
  lemma InviteReadsBack(e: Event, now: int)
    requires Dated(e, now) && OneLine(e.uid)
    ensures ReadsAs(ReadLines(BuildIcs(e, now)), e, now)
  {
    hide NumberString, ReadNumber, EscapeText, ToIcsDate, Find, ReadText, Normalise, FieldsOf, ReadIcsDate, OneLine, BuildIcs, ReadLines, Lines,
      Properties, Starting, IsOrganizerLine, IsAttendeeLine, IsFramed;
    InviteRoundTrip(e, now);
    LinesReadBack(e, now);
    LinesAreFramed(e, now);
    HeadFields(e, now);
    ClosingFields(e, now);
    OptionalFields(e, now);
    StampReadsBack(e, now);
    OrganizerReadsBack(e, now);
    AttendeesReadBack(e, now);
    EscapeRoundTrip(e.summary);
    OptionalReadsBack(Lines(Properties(e, now)), "DESCRIPTION", e.description);
    OptionalReadsBack(Lines(Properties(e, now)), "LOCATION", e.location);
    NumberRoundTrip(if e.sequence.Some? then e.sequence.value else 0);
    IcsDateRoundTrip(now);
    IcsDateRoundTrip(e.start);
    IcsDateRoundTrip(e.end);
  }
}
