// A printed calendar email reads back as the parts that were printed.
module MimeFacts {
  import opened Wrappers
  import opened Strings
  import opened Encodings
  import opened Mime
  import Invites

  // ---------------------------------------------------------------------------
  // Reading lines
  // ---------------------------------------------------------------------------

  ghost predicate Quiet(lines: seq<string>, delimiter: string) {
    forall i :: 0 <= i < |lines| ==> !(delimiter <= lines[i])
  }

  lemma {:induction false} RunsPass(a: seq<string>, rest: seq<string>, delimiter: string, run: seq<string>)
    requires Quiet(a, delimiter)
    ensures Runs(a + rest, delimiter, run) == Runs(rest, delimiter, run + a)
    decreases |a|
  {
    if a == [] {
      assert a + rest == rest && run + a == run;
    } else {
      assert (a + rest)[1..] == a[1..] + rest && (a + rest)[0] == a[0];
      RunsPass(a[1..], rest, delimiter, run + [a[0]]);
      assert run + [a[0]] + a[1..] == run + a;
    }
  }

  lemma RunsBreak(rest: seq<string>, delimiter: string, run: seq<string>)
    ensures Runs([delimiter] + rest, delimiter, run) == [run] + Runs(rest, delimiter, [])
  {
    assert ([delimiter] + rest)[1..] == rest && delimiter[|delimiter|..] == "";
  }

  lemma RunsClose(rest: seq<string>, delimiter: string, run: seq<string>)
    ensures Runs([delimiter + "--"] + rest, delimiter, run) == [run]
  {
    assert (delimiter + "--")[|delimiter|..] == "--";
  }

  /** A run up to the next delimiter. */
  lemma RunsTake(a: seq<string>, rest: seq<string>, delimiter: string)
    requires Quiet(a, delimiter)
    ensures Runs(a + ([delimiter] + rest), delimiter, []) == [a] + Runs(rest, delimiter, [])
    ensures Runs(a + [delimiter + "--", ""], delimiter, []) == [a]
  {
    hide Runs, Quiet;
    RunsPass(a, [delimiter] + rest, delimiter, []);
    RunsPass(a, [delimiter + "--", ""], delimiter, []);
    RunsBreak(rest, delimiter, a);
    RunsClose([""], delimiter, a);
    assert [delimiter + "--"] + [""] == [delimiter + "--", ""] && [] + a == a;
  }

  lemma {:induction false} HeadAndBody(h: seq<string>, b: seq<string>)
    requires forall i :: 0 <= i < |h| ==> h[i] != ""
    ensures HeadersOf(h + ([""] + b)) == h && BodyOf(h + ([""] + b)) == b
    decreases |h|
  {
    var lines := h + ([""] + b);
    if h == [] {
      assert lines == [""] + b && lines[1..] == b;
    } else {
      assert lines[1..] == h[1..] + ([""] + b) && lines[0] == h[0];
      HeadAndBody(h[1..], b);
    }
  }

  lemma {:induction false} ConcatBlank(lines: seq<string>)
    ensures Concat(lines + [""]) == Concat(lines)
    decreases |lines|
  {
    if lines == [] {
      assert Concat([""]) == "" + Concat([]);
    } else {
      assert (lines + [""])[1..] == lines[1..] + [""];
      ConcatBlank(lines[1..]);
    }
  }

  lemma LeafReads(headers: seq<string>, text: string)
    requires BoundaryOf(headers).None? && SaysBase64(headers) && forall i :: 0 <= i < |headers| ==> headers[i] != ""
    ensures ReadEntity(Part(headers, WrapLines(EncodeText(text)))) == Leaf(headers, Some(text))
  {
    hide BoundaryOf, WrapLines, EncodeText, DecodeText, SaysBase64;
    var body := WrapLines(EncodeText(text));
    HeadAndBody(headers, body + [""]);
    ConcatBlank(body);
    WrapIsLines(EncodeText(text));
    TextRoundTrip(text);
  }

  /** Lines that start with no hyphen. */
  ghost predicate Dull(lines: seq<string>) {
    forall i :: 0 <= i < |lines| ==> lines[i] == "" || lines[i][0] != '-'
  }

  lemma DullIsQuiet(lines: seq<string>, delimiter: string)
    requires Dull(lines) && delimiter != "" && delimiter[0] == '-'
    ensures Quiet(lines, delimiter)
  {
  }

  lemma PartIsDull(headers: seq<string>, text: string)
    requires Dull(headers)
    ensures Dull(Part(headers, WrapLines(EncodeText(text))))
  {
    hide WrapLines, EncodeText;
    var body := WrapLines(EncodeText(text));
    WrapIsLines(EncodeText(text));
    TextRoundTrip(text);
    forall i | 0 <= i < |body| ensures body[i] == "" || body[i][0] != '-' {
      assert body[i] != "" ==> body[i][0] in EncodeText(text);
    }
  }

  // ---------------------------------------------------------------------------
  // Headers
  // ---------------------------------------------------------------------------

  lemma {:induction false} UpToQuoteIs(x: string)
    requires '"' !in x
    ensures UpToQuote(x + "\"") == x
    decreases |x|
  {
    if x == "" {
      assert x + "\"" == "\"";
    } else {
      assert (x + "\"")[1..] == x[1..] + "\"" && x[0] in x;
      assert forall c :: c in x[1..] ==> c in x;
      UpToQuoteIs(x[1..]);
      assert x == [x[0]] + x[1..];
    }
  }

  /** Headers of a leaf: none is empty, starts with a hyphen, or announces parts. */
  ghost predicate LeafHeaders(h: seq<string>) {
    forall i :: 0 <= i < |h| ==> h[i] != "" && h[i][0] != '-' && !(MixedType() <= h[i]) && !(AltType() <= h[i])
  }

  lemma {:induction false} NoBoundary(h: seq<string>)
    requires LeafHeaders(h)
    ensures BoundaryOf(h).None? && Dull(h)
    decreases |h|
  {
    if h != [] { NoBoundary(h[1..]); }
  }

  lemma NotMultipart(line: string, i: nat)
    requires i < |line| && i < 15 && line[i] != "Content-Type: m"[i]
    ensures !(MixedType() <= line) && !(AltType() <= line)
  {
    assert MixedType()[..15] == "Content-Type: m" && AltType()[..15] == "Content-Type: m";
  }

  lemma EncodedIsLeaf()
    ensures LeafHeaders([Encoded()])
  {
    hide MixedType, AltType;
    NotMultipart(Encoded(), 9);
  }

  lemma TextAndHtmlAreLeaf()
    ensures LeafHeaders(TextHeaders()) && LeafHeaders(HtmlHeaders())
  {
    hide MixedType, AltType, Encoded;
    EncodedIsLeaf();
    NotMultipart(TextHeaders()[0], 14);
    NotMultipart(HtmlHeaders()[0], 14);
    assert TextHeaders()[1] == HtmlHeaders()[1] == [Encoded()][0];
  }

  lemma CalendarIsLeaf(m: Mail)
    ensures LeafHeaders(CalendarHeaders(m))
  {
    hide MixedType, AltType, Invites.MethodName, Encoded;
    EncodedIsLeaf();
    NotMultipart(CalendarHeaders(m)[0], 14);
    assert CalendarHeaders(m)[1] == [Encoded()][0];
  }

  lemma AttachmentIsLeaf(m: Mail)
    ensures LeafHeaders(AttachmentHeaders(m))
  {
    hide MixedType, AltType, Filename, Encoded;
    EncodedIsLeaf();
    NotMultipart(AttachmentHeaders(m)[0], 14);
    NotMultipart(AttachmentHeaders(m)[1], 8);
    assert AttachmentHeaders(m)[2] == [Encoded()][0];
  }

  lemma TopBoundary(m: Mail, rand: string)
    requires IsSuffix(rand)
    ensures BoundaryOf(TopHeaders(m, rand)) == Some(Mixed(rand))
    ensures Dull(TopHeaders(m, rand)) && forall i :: 0 <= i < |TopHeaders(m, rand)| ==> TopHeaders(m, rand)[i] != ""
  {
    hide MixedType, AltType, UpToQuote, EncodeHeader;
    var h := TopHeaders(m, rand);
    NotMultipart(h[0], 0);
    NotMultipart(h[1], 0);
    NotMultipart(h[2], 0);
    NotMultipart(h[3], 0);
    assert h[4][|MixedType()|..] == Mixed(rand) + "\"";
    UpToQuoteIs(Mixed(rand));
    assert BoundaryOf(h) == BoundaryOf(h[1..]) == BoundaryOf(h[1..][1..]) && h[1..][1..] == h[2..];
    assert BoundaryOf(h[2..]) == BoundaryOf(h[2..][1..]) == BoundaryOf(h[2..][1..][1..]) && h[2..][1..][1..] == [h[4]];
    MixedStarts();
  }

  lemma MixedStarts()
    ensures MixedType() != "" && MixedType()[0] == 'C' && AltType() != "" && AltType()[0] == 'C'
  {
  }

  lemma AltBoundary(rand: string)
    requires IsSuffix(rand)
    ensures BoundaryOf(AltHeaders(rand)) == Some(Alt(rand))
    ensures AltHeaders(rand)[0] != ""
  {
    hide UpToQuote;
    var h := AltHeaders(rand);
    assert h[0][24] == 'a' && MixedType()[24] == 'm' && h[0][0] == 'C';
    assert !(MixedType() <= h[0]) && AltType() <= h[0];
    assert h[0][|AltType()|..] == Alt(rand) + "\"";
    UpToQuoteIs(Alt(rand));
    assert BoundaryOf(h) == Some(UpToQuote(h[0][|AltType()|..]));
  }

  // ---------------------------------------------------------------------------
  // Reading the message
  // ---------------------------------------------------------------------------

  /** What a reader should see. */
  function Printed(m: Mail, rand: string): Entity {
    Multi(TopHeaders(m, rand), [
      Multi(AltHeaders(rand), [
        Leaf(TextHeaders(), Some(m.text)), Leaf(HtmlHeaders(), Some(m.html)), Leaf(CalendarHeaders(m), Some(m.content))]),
      Leaf(AttachmentHeaders(m), Some(m.content))])
  }

  function TextPart(m: Mail): seq<string> {
    Part(TextHeaders(), WrapLines(EncodeText(m.text)))
  }

  function HtmlPart(m: Mail): seq<string> {
    Part(HtmlHeaders(), WrapLines(EncodeText(m.html)))
  }

  function CalendarPart(m: Mail): seq<string> {
    Part(CalendarHeaders(m), WrapLines(EncodeText(m.content)))
  }

  function AttachmentPart(m: Mail): seq<string> {
    Part(AttachmentHeaders(m), WrapLines(EncodeText(m.content)))
  }

  lemma LeavesRead(m: Mail)
    ensures ReadEntity(TextPart(m)) == Leaf(TextHeaders(), Some(m.text)) && Dull(TextPart(m))
    ensures ReadEntity(HtmlPart(m)) == Leaf(HtmlHeaders(), Some(m.html)) && Dull(HtmlPart(m))
    ensures ReadEntity(CalendarPart(m)) == Leaf(CalendarHeaders(m), Some(m.content)) && Dull(CalendarPart(m))
    ensures ReadEntity(AttachmentPart(m)) == Leaf(AttachmentHeaders(m), Some(m.content)) && Dull(AttachmentPart(m))
  {
    hide SaysBase64, TextHeaders, HtmlHeaders, CalendarHeaders, AttachmentHeaders, ReadEntity, BoundaryOf, Part, MixedType, AltType, Dull;
    LeavesSayBase64(m);
    TextAndHtmlAreLeaf();
    CalendarIsLeaf(m);
    AttachmentIsLeaf(m);
    LeafPartReads(TextHeaders(), m.text);
    LeafPartReads(HtmlHeaders(), m.html);
    LeafPartReads(CalendarHeaders(m), m.content);
    LeafPartReads(AttachmentHeaders(m), m.content);
  }

  lemma LeavesSayBase64(m: Mail)
    ensures SaysBase64(TextHeaders()) && SaysBase64(HtmlHeaders()) && SaysBase64(CalendarHeaders(m)) && SaysBase64(AttachmentHeaders(m))
  {
    hide ContentType, Invites.MethodName, Filename;
    assert TextHeaders()[1] == HtmlHeaders()[1] == CalendarHeaders(m)[1] == AttachmentHeaders(m)[2] == Encoded();
  }

  lemma LeafPartReads(h: seq<string>, text: string)
    requires LeafHeaders(h) && SaysBase64(h)
    ensures ReadEntity(Part(h, WrapLines(EncodeText(text)))) == Leaf(h, Some(text)) && Dull(Part(h, WrapLines(EncodeText(text))))
  {
    hide ReadEntity, BoundaryOf, Part, MixedType, AltType, SaysBase64;
    NoBoundary(h);
    LeafReads(h, text);
    PartIsDull(h, text);
  }

  lemma AltRuns(m: Mail, rand: string)
    ensures Runs(AltBody(m, rand, WrappedBodies(m)), "--" + Alt(rand), []) == [[], TextPart(m), HtmlPart(m), CalendarPart(m)]
  {
    hide TextHeaders, HtmlHeaders, CalendarHeaders, Part, ReadEntity, Runs, Dull, WrapLines, EncodeText;
    var alt := "--" + Alt(rand);
    LeavesRead(m);
    DullIsQuiet(TextPart(m), alt);
    DullIsQuiet(HtmlPart(m), alt);
    DullIsQuiet(CalendarPart(m), alt);
    var c := CalendarPart(m) + [alt + "--", ""];
    var h := HtmlPart(m) + ([alt] + c);
    RunsBreak(TextPart(m) + ([alt] + h), alt, []);
    RunsTake(TextPart(m), h, alt);
    RunsTake(HtmlPart(m), c, alt);
    RunsTake(CalendarPart(m), [], alt);
  }

  function AltPart(m: Mail, rand: string): seq<string> {
    AltHeaders(rand) + ([""] + AltBody(m, rand, WrappedBodies(m)))
  }

  lemma MultiReads(lines: seq<string>, headers: seq<string>, body: seq<string>, boundary: string)
    requires lines == headers + ([""] + body) && BoundaryOf(headers) == Some(boundary)
    requires forall i :: 0 <= i < |headers| ==> headers[i] != ""
    ensures var runs := Runs(body, "--" + boundary, [])[1..];
      var e := ReadEntity(lines);
      e.Multi? && e.headers == headers && |e.parts| == |runs| && forall i :: 0 <= i < |runs| ==> e.parts[i] == ReadEntity(runs[i])
  {
    hide Runs, BoundaryOf;
    HeadAndBody(headers, body);
  }

  lemma AltReads(m: Mail, rand: string)
    requires IsSuffix(rand)
    ensures ReadEntity(AltPart(m, rand)) == Printed(m, rand).parts[0]
  {
    hide TextHeaders, HtmlHeaders, CalendarHeaders, AttachmentHeaders, TopHeaders, ReadEntity, Runs, BoundaryOf, AltBody, TextPart, HtmlPart, CalendarPart, AttachmentPart;
    AltBoundary(rand);
    var body := AltBody(m, rand, WrappedBodies(m));
    MultiReads(AltPart(m, rand), AltHeaders(rand), body, Alt(rand));
    AltRuns(m, rand);
    assert Runs(body, "--" + Alt(rand), [])[1..] == [TextPart(m), HtmlPart(m), CalendarPart(m)];
    LeavesRead(m);
    assert ReadEntity(AltPart(m, rand)).parts == Printed(m, rand).parts[0].parts;
  }

  /** No line of the inner entity starts with the outer delimiter. */
  lemma AltPartIsQuiet(m: Mail, rand: string)
    ensures Quiet(AltPart(m, rand), "--" + Mixed(rand))
  {
    hide TextHeaders, HtmlHeaders, CalendarHeaders, AttachmentHeaders, Part, WrapLines, EncodeText, ReadEntity, AltHeaders, Dull, AltType;
    var mixed, alt := "--" + Mixed(rand), "--" + Alt(rand);
    LeavesRead(m);
    DullIsQuiet(TextPart(m), mixed);
    DullIsQuiet(HtmlPart(m), mixed);
    DullIsQuiet(CalendarPart(m), mixed);
    AltHeadersAreDull(rand);
    DullIsQuiet(AltHeaders(rand), mixed);
    assert mixed[2] == 'm' && alt[2] == 'a' && (alt + "--")[2] == 'a';
    assert Quiet([alt], mixed) && Quiet([""], mixed) && Quiet([alt + "--", ""], mixed);
  }

  lemma AltHeadersAreDull(rand: string)
    ensures Dull(AltHeaders(rand))
  {
    assert AltHeaders(rand)[0][0] == 'C';
  }

  lemma MixedRuns(m: Mail, rand: string)
    ensures Runs(MixedBody(m, rand, WrappedBodies(m)), "--" + Mixed(rand), []) == [[], AltPart(m, rand), AttachmentPart(m)]
  {
    hide AltHeaders, AttachmentHeaders, Part, ReadEntity, Runs, Dull, WrapLines, EncodeText, AltBody, Quiet;
    var mixed := "--" + Mixed(rand);
    LeavesRead(m);
    AltPartIsQuiet(m, rand);
    DullIsQuiet(AttachmentPart(m), mixed);
    var a := AttachmentPart(m) + [mixed + "--", ""];
    RunsBreak(AltPart(m, rand) + ([mixed] + a), mixed, []);
    RunsTake(AltPart(m, rand), a, mixed);
    RunsTake(AttachmentPart(m), [], mixed);
  }

  lemma LinesRead(m: Mail, rand: string)
    requires IsSuffix(rand)
    ensures ReadEntity(MailLines(m, rand)) == Printed(m, rand)
  {
    hide AltHeaders, AttachmentHeaders, TextHeaders, HtmlHeaders, CalendarHeaders, TopHeaders, ReadEntity, Runs, BoundaryOf, MixedBody, AltPart, AttachmentPart;
    TopBoundary(m, rand);
    var body := MixedBody(m, rand, WrappedBodies(m));
    MultiReads(MailLines(m, rand), TopHeaders(m, rand), body, Mixed(rand));
    MixedRuns(m, rand);
    assert Runs(body, "--" + Mixed(rand), [])[1..] == [AltPart(m, rand), AttachmentPart(m)];
    AltReads(m, rand);
    LeavesRead(m);
    assert ReadEntity(MailLines(m, rand)).parts == Printed(m, rand).parts;
  }

  // ---------------------------------------------------------------------------
  // Lines of the message
  // ---------------------------------------------------------------------------

  lemma {:induction false} NoReturnIsClear(x: string, rest: string)
    requires '\r' !in x
    ensures Clear(x, rest)
    decreases |x|
  {
    if x != "" {
      assert (x + rest)[0] == x[0] && x[0] in x;
      assert forall c :: c in x[1..] ==> c in x;
      NoReturnIsClear(x[1..], rest);
    }
  }

  lemma AroundOneLine(open: string, x: string, close: string)
    requires '\r' !in open && '\r' !in close && close != "" && close[0] != '\n'
    ensures OneLine(open + (x + close)) <==> OneLine(x)
  {
    ClearJoins(open, x + close, "");
    assert x + close + "" == x + close && close + "" == close;
    NoReturnIsClear(open, x + close);
    ClearJoins(x, close, "");
    NoReturnIsClear(close, "");
    if OneLine(x) { ClearBefore(x, close); }
    if Clear(x, close) { ClearCut(x, close); }
  }

  ghost predicate NoReturns(lines: seq<string>) {
    forall i :: 0 <= i < |lines| ==> '\r' !in lines[i]
  }

  lemma NoReturnsAreLines(lines: seq<string>)
    requires NoReturns(lines)
    ensures AllOneLine(lines)
  {
    forall i | 0 <= i < |lines| ensures OneLine(lines[i]) {
      NoReturnIsClear(lines[i], "");
    }
  }

  lemma MarksHaveNoReturn(rand: string)
    requires IsSuffix(rand)
    ensures '\r' !in Mixed(rand) && '\r' !in Alt(rand) && '\r' !in "--" + Mixed(rand) && '\r' !in "--" + Alt(rand)
    ensures '\r' !in "--" + Mixed(rand) + "--" && '\r' !in "--" + Alt(rand) + "--"
  {
    assert '\r' !in rand;
    var mixed, alt := "mixed_", "alt_";
    assert '\r' !in mixed && '\r' !in alt && '\r' !in "--";
  }

  lemma TypesHaveNoReturn()
    ensures '\r' !in MixedType() && '\r' !in AltType() && '\r' !in Encoded()
  {
  }

  lemma FixedHeadersHaveNoReturn(m: Mail, rand: string)
    requires IsSuffix(rand)
    ensures NoReturns(AltHeaders(rand)) && NoReturns(TextHeaders()) && NoReturns(HtmlHeaders()) && NoReturns(CalendarHeaders(m))
  {
    hide MixedType, AltType, Encoded, Alt;
    MarksHaveNoReturn(rand);
    TypesHaveNoReturn();
    assert '\r' !in "\"" && '\r' !in Invites.MethodName(Some(m.way));
  }

  lemma TopHeadersLines(m: Mail, rand: string)
    requires IsSuffix(rand)
    ensures AllOneLine(TopHeaders(m, rand)) <==> OneLine(m.from)
  {
    hide MixedType, Mixed, EncodeHeader, OneLine;
    MarksHaveNoReturn(rand);
    TypesHaveNoReturn();
    HeaderIsOneLine(m.to);
    HeaderIsOneLine(m.subject);
    var h, from, to, subject, version, close := TopHeaders(m, rand), "From: RecDesk <", "To: ", "Subject: ", "MIME-Version: 1.0", "\"";
    assert '\r' !in from && '\r' !in ">" && '\r' !in to && '\r' !in subject && '\r' !in version && '\r' !in close;
    AroundOneLine(from, m.from, ">");
    assert h == [h[0]] + h[1..] && NoReturns(h[1..]);
    NoReturnsAreLines(h[1..]);
    assert forall i :: 1 <= i < |h| ==> h[i] == h[1..][i - 1];
  }

  lemma NamedTypeLine(name: string)
    ensures OneLine(ContentType("application/ics", " name=\"" + (name + "\""))) <==> OneLine(name)
  {
    hide OneLine;
    var field, kind, parameter, close := "Content-Type" + ": ", "application/ics" + ";", " name=\"", "\"";
    assert '\r' !in field && '\r' !in kind && '\r' !in parameter && '\r' !in close;
    var open := field + kind + parameter;
    AroundOneLine(open, name, close);
    assert ContentType("application/ics", " name=\"" + (name + "\"")) == open + (name + close);
  }

  lemma DispositionLine(name: string)
    ensures OneLine("Content-Disposition: " + "attachment; filename=\"" + (name + "\"")) <==> OneLine(name)
  {
    hide OneLine;
    var field, parameter, close := "Content-Disposition: ", "attachment; filename=\"", "\"";
    assert '\r' !in field && '\r' !in parameter && '\r' !in close;
    AroundOneLine(field + parameter, name, close);
  }

  lemma AttachmentHeadersLines(m: Mail)
    ensures AllOneLine(AttachmentHeaders(m)) <==> OneLine(Filename(m))
  {
    hide OneLine, Encoded, ContentType, Filename;
    NamedTypeLine(Filename(m));
    DispositionLine(Filename(m));
    TypesHaveNoReturn();
    NoReturnsAreLines([Encoded()]);
    var h := AttachmentHeaders(m);
    assert |h| == 3 && OneLine(h[2]) by { assert [Encoded()][0] == h[2]; }
    assert h[0] == ContentType("application/ics", " name=\"" + (Filename(m) + "\""));
    assert h[1] == "Content-Disposition: " + "attachment; filename=\"" + (Filename(m) + "\"");
  }

  lemma BodyHasNoReturn(text: string)
    ensures NoReturns(WrapLines(EncodeText(text)))
  {
    hide WrapLines, EncodeText;
    WrapIsLines(EncodeText(text));
    TextRoundTrip(text);
  }

  lemma PartLines(headers: seq<string>, text: string)
    requires AllOneLine(headers)
    ensures AllOneLine(Part(headers, WrapLines(EncodeText(text))))
  {
    hide OneLine, WrapLines, EncodeText;
    BodyHasNoReturn(text);
    NoReturnsAreLines(WrapLines(EncodeText(text)));
    NoReturnsAreLines([""]);
    assert [""][0] == "";
  }

  lemma LinesOfTwo(a: seq<string>, b: seq<string>)
    requires AllOneLine(a) && AllOneLine(b)
    ensures AllOneLine(a + b)
  {
  }

  lemma AltPartLines(m: Mail, rand: string)
    requires IsSuffix(rand)
    ensures AllOneLine(AltPart(m, rand))
  {
    hide AllOneLine, NoReturns, AltHeaders, TextHeaders, HtmlHeaders, CalendarHeaders, Part, WrapLines, EncodeText, Alt;
    var alt := "--" + Alt(rand);
    FixedHeadersHaveNoReturn(m, rand);
    NoReturnsAreLines(AltHeaders(rand));
    NoReturnsAreLines(TextHeaders());
    NoReturnsAreLines(HtmlHeaders());
    NoReturnsAreLines(CalendarHeaders(m));
    PartLines(TextHeaders(), m.text);
    PartLines(HtmlHeaders(), m.html);
    PartLines(CalendarHeaders(m), m.content);
    MarksAreLines(rand);
    var x := CalendarPart(m) + [alt + "--", ""];
    LinesOfTwo(CalendarPart(m), [alt + "--", ""]);
    LinesOfTwo([alt], x);
    LinesOfTwo(HtmlPart(m), [alt] + x);
    x := HtmlPart(m) + ([alt] + x);
    LinesOfTwo([alt], x);
    LinesOfTwo(TextPart(m), [alt] + x);
    x := TextPart(m) + ([alt] + x);
    LinesOfTwo([alt], x);
    LinesOfTwo([""], [alt] + x);
    LinesOfTwo(AltHeaders(rand), [""] + ([alt] + x));
  }

  lemma MarksAreLines(rand: string)
    requires IsSuffix(rand)
    ensures AllOneLine([""])
    ensures AllOneLine(["--" + Alt(rand)]) && AllOneLine(["--" + Alt(rand) + "--", ""])
    ensures AllOneLine(["--" + Mixed(rand)]) && AllOneLine(["--" + Mixed(rand) + "--", ""])
  {
    hide AllOneLine;
    MarksHaveNoReturn(rand);
    NoReturnsAreLines([""]);
    NoReturnsAreLines(["--" + Alt(rand)]);
    NoReturnsAreLines(["--" + Alt(rand) + "--", ""]);
    NoReturnsAreLines(["--" + Mixed(rand)]);
    NoReturnsAreLines(["--" + Mixed(rand) + "--", ""]);
  }

  lemma MailLinesAreLines(m: Mail, rand: string)
    requires IsSuffix(rand) && OneLine(m.from) && OneLine(Filename(m))
    ensures AllOneLine(MailLines(m, rand))
  {
    hide AllOneLine, AltPart, AttachmentHeaders, TopHeaders, Part, Mixed, Filename, OneLine, AltBody, AltHeaders;
    var mixed := "--" + Mixed(rand);
    MarksAreLines(rand);
    TopHeadersLines(m, rand);
    AttachmentHeadersLines(m);
    AltPartLines(m, rand);
    assert AltPart(m, rand) == AltHeaders(rand) + ([""] + AltBody(m, rand, WrappedBodies(m))) by { AltPartIs(m, rand); }
    PartLines(AttachmentHeaders(m), m.content);
    var x := AttachmentPart(m) + [mixed + "--", ""];
    LinesOfTwo(AttachmentPart(m), [mixed + "--", ""]);
    LinesOfTwo([mixed], x);
    LinesOfTwo(AltPart(m, rand), [mixed] + x);
    x := AltPart(m, rand) + ([mixed] + x);
    LinesOfTwo([mixed], x);
    LinesOfTwo([""], [mixed] + x);
    LinesOfTwo(TopHeaders(m, rand), [""] + ([mixed] + x));
  }

  lemma AltPartIs(m: Mail, rand: string)
    ensures AltPart(m, rand) == AltHeaders(rand) + ([""] + AltBody(m, rand, WrappedBodies(m)))
  {
  }

  // ---------------------------------------------------------------------------
  // Headers that a reader sees are lines
  // ---------------------------------------------------------------------------

  lemma {:induction false} HeadersAreLines(lines: seq<string>)
    requires AllOneLine(lines)
    ensures AllOneLine(HeadersOf(lines)) && AllOneLine(BodyOf(lines))
    decreases |lines|
  {
    hide OneLine;
    if lines != [] && lines[0] != "" { HeadersAreLines(lines[1..]); }
  }

  lemma {:induction false} RunsAreLines(lines: seq<string>, delimiter: string, run: seq<string>)
    requires AllOneLine(lines) && AllOneLine(run)
    ensures forall i :: 0 <= i < |Runs(lines, delimiter, run)| ==> AllOneLine(Runs(lines, delimiter, run)[i])
    decreases |lines|
  {
    hide OneLine;
    if lines != [] {
      if delimiter <= lines[0] { RunsAreLines(lines[1..], delimiter, []); } else { RunsAreLines(lines[1..], delimiter, run + [lines[0]]); }
    }
  }

  lemma ReadHeadersAreLines(lines: seq<string>)
    requires AllOneLine(lines)
    ensures AllOneLine(ReadEntity(lines).headers)
    ensures ReadEntity(lines).Multi? ==>
      forall i :: 0 <= i < |ReadEntity(lines).parts| ==> AllOneLine(ReadEntity(lines).parts[i].headers)
  {
    hide AllOneLine, Runs, HeadersOf, BodyOf, BoundaryOf, DecodeText;
    HeadersAreLines(lines);
    var body, boundary := BodyOf(lines), BoundaryOf(HeadersOf(lines));
    if boundary.Some? {
      assert AllOneLine([]) by { NothingIsLines(); }
      RunsAreLines(body, "--" + boundary.value, []);
      var runs := Runs(body, "--" + boundary.value, [])[1..];
      forall i | 0 <= i < |runs| ensures AllOneLine(ReadEntity(runs[i]).headers) {
        HeadersAreLines(runs[i]);
      }
    }
  }

  lemma NothingIsLines()
    ensures AllOneLine([])
  {
  }

  /**
   * Whatever the texts hold, a reader of the message sees exactly the printed
   * parts, with their texts decoded, precisely when sender and file name hold no
   * line break.
   */
  lemma MailReadsBack(m: Mail, rand: string)
    requires IsSuffix(rand)
    ensures ReadMail(BuildCalendarMime(m, rand)) == Printed(m, rand) <==> OneLine(m.from) && OneLine(Filename(m))
  {
    hide AllOneLine, OneLine, ReadEntity, MailLines, BuildCalendarMime, TopHeaders, AttachmentHeaders, AltHeaders, TextHeaders, HtmlHeaders, CalendarHeaders, Split, Join, Filename;
    MessageIsLines(m, rand);
    LinesRead(m, rand);
    TopHeadersLines(m, rand);
    AttachmentHeadersLines(m);
    var text := BuildCalendarMime(m, rand);
    if OneLine(m.from) && OneLine(Filename(m)) {
      MailLinesAreLines(m, rand);
      SplitOfJoin(MailLines(m, rand));
    } else {
      PiecesAreLines(text, "");
      ReadHeadersAreLines(Split(text, CRLF, ""));
      assert Printed(m, rand).parts[1].headers == AttachmentHeaders(m);
    }
  }

  // ---------------------------------------------------------------------------
  // What a reader finds in the message
  // ---------------------------------------------------------------------------

  function HeaderValue(headers: seq<string>, name: string): Option<string> {
    if headers == [] then None
    else if name + ": " <= headers[0] then Some(headers[0][|name| + 2..])
    else HeaderValue(headers[1..], name)
  }

  function UpToSemicolon(s: string): string {
    if s == "" || s[0] == ';' then "" else [s[0]] + UpToSemicolon(s[1..])
  }

  /** The media type of an entity, without parameters. */
  function MediaType(headers: seq<string>): string {
    var value := HeaderValue(headers, "Content-Type");
    if value.Some? then UpToSemicolon(value.value) else ""
  }

  lemma {:induction false} UpToSemicolonIs(x: string, rest: string)
    requires ';' !in x
    ensures UpToSemicolon(x + (";" + rest)) == x
    decreases |x|
  {
    if x == "" {
      assert x + (";" + rest) == ";" + rest;
    } else {
      assert (x + (";" + rest))[1..] == x[1..] + (";" + rest) && x[0] in x;
      assert forall c :: c in x[1..] ==> c in x;
      UpToSemicolonIs(x[1..], rest);
      assert x == [x[0]] + x[1..];
    }
  }

  lemma TypeOfFirst(h: seq<string>, kind: string, rest: string)
    requires h != [] && h[0] == ContentType(kind, rest) && ';' !in kind
    ensures MediaType(h) == kind
  {
    UpToSemicolonIs(kind, rest);
    var name := "Content-Type" + ": ";
    assert h[0][|name|..] == kind + (";" + rest);
  }

  lemma PlainTypes()
    ensures MediaType(TextHeaders()) == "text/plain" && MediaType(HtmlHeaders()) == "text/html"
  {
    hide MediaType, Encoded;
    TypeOfFirst(TextHeaders(), "text/plain", " charset=UTF-8");
    TypeOfFirst(HtmlHeaders(), "text/html", " charset=UTF-8");
  }

  lemma CalendarTypes(m: Mail)
    ensures MediaType(CalendarHeaders(m)) == "text/calendar" && MediaType(AttachmentHeaders(m)) == "application/ics"
  {
    hide MediaType, Encoded, Invites.MethodName, Filename;
    TypeOfFirst(CalendarHeaders(m), "text/calendar", " charset=UTF-8; method=" + Invites.MethodName(Some(m.way)));
    TypeOfFirst(AttachmentHeaders(m), "application/ics", " name=\"" + (Filename(m) + "\""));
  }

  lemma FromHeader(m: Mail, rand: string)
    ensures HeaderValue(TopHeaders(m, rand), "From") == Some("RecDesk <" + (m.from + ">"))
  {
    hide EncodeHeader, MixedType, Mixed;
    var from := "From" + ": ";
    assert "From: RecDesk <" == from + "RecDesk <";
    assert TopHeaders(m, rand)[0] == from + ("RecDesk <" + (m.from + ">"));
    assert TopHeaders(m, rand)[0][|from|..] == "RecDesk <" + (m.from + ">");
  }

  /** The two multipart entities say what they are. */
  lemma MultipartTypes(m: Mail, rand: string)
    ensures MediaType(TopHeaders(m, rand)) == "multipart/mixed" && MediaType(AltHeaders(rand)) == "multipart/alternative"
  {
    hide EncodeHeader, Mixed, Alt, UpToSemicolon;
    var name := "Content-Type" + ": ";
    TypesAreSpelled();
    var mixed, alt := "multipart/mixed", "multipart/alternative";
    var a, b := " boundary=\"" + (Mixed(rand) + "\""), " boundary=\"" + (Alt(rand) + "\"");
    assert MixedType() + Mixed(rand) + "\"" == name + (mixed + (";" + a));
    assert AltType() + Alt(rand) + "\"" == name + (alt + (";" + b));
    UpToSemicolonIs(mixed, a);
    UpToSemicolonIs(alt, b);
    var h := TopHeaders(m, rand);
    assert h[0][0] == 'F' && h[1][0] == 'T' && h[2][0] == 'S' && h[3][0] == 'M' && name[0] == 'C';
    assert h[4][|name|..] == mixed + (";" + a) && AltHeaders(rand)[0][|name|..] == alt + (";" + b);
    assert HeaderValue(h, "Content-Type") == HeaderValue(h[1..], "Content-Type") == HeaderValue(h[1..][1..], "Content-Type") && h[1..][1..] == h[2..];
    assert HeaderValue(h[2..], "Content-Type") == HeaderValue(h[2..][1..], "Content-Type") == HeaderValue(h[2..][1..][1..], "Content-Type") && h[2..][1..][1..] == [h[4]];
  }

  lemma TypesAreSpelled()
    ensures MixedType() == "Content-Type" + ": " + ("multipart/mixed" + (";" + " boundary=\""))
    ensures AltType() == "Content-Type" + ": " + ("multipart/alternative" + (";" + " boundary=\""))
  {
  }

  lemma AddressHeaders(m: Mail, rand: string)
    ensures HeaderValue(TopHeaders(m, rand), "To") == Some(EncodeHeader(m.to))
    ensures HeaderValue(TopHeaders(m, rand), "Subject") == Some(EncodeHeader(m.subject))
    ensures HeaderValue(TopHeaders(m, rand), "From") == Some("RecDesk <" + (m.from + ">"))
  {
    hide EncodeHeader, MixedType, Mixed;
    FromHeader(m, rand);
    var h := TopHeaders(m, rand);
    var to, subject := "To" + ": ", "Subject" + ": ";
    assert h[0][0] == 'F' && to[0] == 'T' && subject[0] == 'S' && h[1][0] == 'T';
    assert h[1] == to + EncodeHeader(m.to) && h[1][|to|..] == EncodeHeader(m.to);
    assert h[2] == subject + EncodeHeader(m.subject) && h[2][|subject|..] == EncodeHeader(m.subject);
    assert HeaderValue(h, "To") == HeaderValue(h[1..], "To") && h[1..][0] == h[1];
    assert HeaderValue(h, "Subject") == HeaderValue(h[1..], "Subject") == HeaderValue(h[1..][1..], "Subject") && h[1..][1..][0] == h[2];
  }

  /** The texts of the leaves of a media type, in their order. */
  function TextsOf(e: Entity, kind: string): seq<Option<string>> {
    match e
    case Leaf(headers, text) => if MediaType(headers) == kind then [text] else []
    case Multi(_, parts) => TextsOfAll(parts, kind)
  }

  function TextsOfAll(parts: seq<Entity>, kind: string): seq<Option<string>> {
    if parts == [] then [] else TextsOf(parts[0], kind) + TextsOfAll(parts[1..], kind)
  }

  lemma TextsOfThree(a: Entity, b: Entity, c: Entity, kind: string)
    ensures TextsOfAll([a, b, c], kind) == TextsOf(a, kind) + (TextsOf(b, kind) + TextsOf(c, kind))
    ensures TextsOfAll([a, b], kind) == TextsOf(a, kind) + TextsOf(b, kind)
  {
    hide TextsOf;
    assert [a, b, c][1..] == [b, c] && [b, c][1..] == [c] && [a, b][1..] == [b] && [c][1..] == [] && [b][1..] == [];
    assert TextsOfAll([c], kind) == TextsOf(c, kind) && TextsOfAll([b], kind) == TextsOf(b, kind);
  }

  /** Each text is found under its own media type, once, and the invite also as an attachment. */
  lemma PrintedTexts(m: Mail, rand: string)
    ensures TextsOf(Printed(m, rand), "text/plain") == [Some(m.text)] && TextsOf(Printed(m, rand), "text/html") == [Some(m.html)]
    ensures TextsOf(Printed(m, rand), "text/calendar") == [Some(m.content)] && TextsOf(Printed(m, rand), "application/ics") == [Some(m.content)]
  {
    hide TextHeaders, HtmlHeaders, CalendarHeaders, AttachmentHeaders, TopHeaders, AltHeaders, MediaType;
    PlainTypes();
    CalendarTypes(m);
    forall kind ensures TextsOf(Printed(m, rand), kind) == (if kind == "text/plain" then [Some(m.text)] else [])
      + (if kind == "text/html" then [Some(m.html)] else []) + (if kind == "text/calendar" then [Some(m.content)] else [])
      + (if kind == "application/ics" then [Some(m.content)] else [])
    {
      PrintedOfKind(m, rand, kind);
    }
  }

  lemma PrintedOfKind(m: Mail, rand: string, kind: string)
    ensures TextsOf(Printed(m, rand), kind) == (if kind == "text/plain" then [Some(m.text)] else [])
      + (if kind == "text/html" then [Some(m.html)] else []) + (if kind == "text/calendar" then [Some(m.content)] else [])
      + (if kind == "application/ics" then [Some(m.content)] else [])
  {
    hide TextHeaders, HtmlHeaders, CalendarHeaders, AttachmentHeaders, TopHeaders, AltHeaders, MediaType;
    PlainTypes();
    CalendarTypes(m);
    var parts := Printed(m, rand).parts;
    var leaves := parts[0].parts;
    TextsOfThree(leaves[0], leaves[1], leaves[2], kind);
    TextsOfThree(parts[0], parts[1], parts[1], kind);
  }

  /** What follows the first `mark` in `s`. */
  function After(s: string, mark: string): Option<string>
    decreases |s|
  {
    if mark <= s then Some(s[|mark|..]) else if s == "" then None else After(s[1..], mark)
  }

  lemma {:induction false} AfterPasses(x: string, rest: string, mark: string)
    requires mark != "" && mark[0] !in x
    ensures After(x + rest, mark) == After(rest, mark)
    decreases |x|
  {
    if x == "" {
      assert x + rest == rest;
    } else {
      assert (x + rest)[1..] == x[1..] + rest && (x + rest)[0] == x[0] && x[0] in x;
      assert forall c :: c in x[1..] ==> c in x;
      AfterPasses(x[1..], rest, mark);
    }
  }

  /** The method parameter of a Content-Type line. */
  function MethodOf(headers: seq<string>): Option<string> {
    var value := HeaderValue(headers, "Content-Type");
    if value.Some? then
      var found := After(value.value, "; method=");
      if found.Some? then Some(UpToSemicolon(found.value)) else None
    else None
  }

  lemma {:induction false} NoSemicolon(x: string)
    requires ';' !in x
    ensures UpToSemicolon(x) == x
    decreases |x|
  {
    if x != "" {
      assert x[0] in x && forall c :: c in x[1..] ==> c in x;
      NoSemicolon(x[1..]);
      assert x == [x[0]] + x[1..];
    }
  }

  lemma CalendarParameter(m: Mail)
    ensures MethodOf(CalendarHeaders(m)) == Some(if m.way.CANCEL? then "CANCEL" else "REQUEST")
  {
    var way, mark := if m.way.CANCEL? then "CANCEL" else "REQUEST", "; method=";
    MethodIsSpelled(m.way);
    var kind, charset := "text/calendar", " charset=UTF-8";
    var line, name := CalendarHeaders(m)[0], "Content-Type" + ": ";
    CalendarLine(m);
    assert line[|name|..] == kind + (";" + (charset + (mark + way)));
    AfterPasses(kind, ";" + (charset + (mark + way)), mark);
    var tail := charset + (mark + way);
    assert (";" + tail)[1..] == tail && (";" + tail)[2] == 'c' && mark[2] == 'm';
    AfterPasses(charset, mark + way, mark);
    assert (mark + way)[|mark|..] == way;
    NoSemicolon(way);
  }

  lemma MethodIsSpelled(way: Invites.Method)
    ensures Invites.MethodName(Some(way)) == if way.CANCEL? then "CANCEL" else "REQUEST"
  {
  }

  lemma CalendarLine(m: Mail)
    ensures CalendarHeaders(m)[0] == "Content-Type" + ": " + ("text/calendar" + (";" + (" charset=UTF-8" + ("; method=" + Invites.MethodName(Some(m.way))))))
  {
    hide Invites.MethodName;
    assert " charset=UTF-8; method=" == " charset=UTF-8" + "; method=";
  }

  /** The name under which the attachment is offered. */
  lemma AttachmentName(m: Mail)
    ensures HeaderValue(AttachmentHeaders(m), "Content-Disposition")
      == Some("attachment; filename=\"" + ((if m.filename.Some? && m.filename.value != "" then m.filename.value else "invite.ics") + "\""))
  {
    var h, name := AttachmentHeaders(m), "Content-Disposition" + ": ";
    assert h[0][8] == 'T' && name[8] == 'D';
    assert h[1] == "Content-Disposition: " + "attachment; filename=\"" + (Filename(m) + "\"") && "Content-Disposition: " == name;
    assert h[1][|name|..] == "attachment; filename=\"" + (Filename(m) + "\"");
    assert HeaderValue(h, "Content-Disposition") == HeaderValue(h[1..], "Content-Disposition") && h[1..][0] == h[1];
  }

  /** A reader finds recipient, subject and every text where they belong. */
  lemma ReadersFindTheirPart(m: Mail, rand: string)
    requires IsSuffix(rand) && OneLine(m.from) && OneLine(Filename(m))
    ensures var read := ReadMail(BuildCalendarMime(m, rand));
      && MediaType(read.headers) == "multipart/mixed" && HeaderValue(read.headers, "From") == Some("RecDesk <" + (m.from + ">"))
      && HeaderValue(read.headers, "To") == Some(EncodeHeader(m.to)) && HeaderValue(read.headers, "Subject") == Some(EncodeHeader(m.subject))
      && TextsOf(read, "text/plain") == [Some(m.text)] && TextsOf(read, "text/html") == [Some(m.html)]
      && TextsOf(read, "text/calendar") == [Some(m.content)] && TextsOf(read, "application/ics") == [Some(m.content)]
      && read.Multi? && |read.parts| == 2 && read.parts[0].Multi? && |read.parts[0].parts| == 3
      && MediaType(read.parts[0].headers) == "multipart/alternative"
      && MethodOf(read.parts[0].parts[2].headers) == Some(if m.way.CANCEL? then "CANCEL" else "REQUEST")
      && HeaderValue(read.parts[1].headers, "Content-Disposition")
        == Some("attachment; filename=\"" + ((if m.filename.Some? && m.filename.value != "" then m.filename.value else "invite.ics") + "\""))
  {
    hide MediaType, AltHeaders, MethodOf, CalendarHeaders, AttachmentHeaders, OneLine, ReadMail, BuildCalendarMime, TextsOf, HeaderValue, EncodeHeader, Filename, TopHeaders;
    MailReadsBack(m, rand);
    PrintedTexts(m, rand);
    AddressHeaders(m, rand);
    CalendarParameter(m);
    AttachmentName(m);
    MultipartTypes(m, rand);
  }

  /** The invite in a calendar email reaches its reader: the calendar part holds the fields of the event. */
  lemma InviteReachesReader(m: Mail, rand: string, e: Invites.Event, now: int)
    requires IsSuffix(rand) && OneLine(m.from) && OneLine(Filename(m))
    requires Invites.Dated(e, now) && OneLine(e.uid) && m.content == Invites.BuildIcs(e, now)
    ensures var read := ReadMail(BuildCalendarMime(m, rand));
      && read.Multi? && |read.parts| == 2 && read.parts[0].Multi? && |read.parts[0].parts| == 3
      && read.parts[0].parts[2].Leaf? && read.parts[0].parts[2].text.Some?
      && Invites.ReadsAs(Invites.ReadLines(read.parts[0].parts[2].text.value), e, now)
  {
    hide OneLine, ReadMail, BuildCalendarMime, Invites.Dated, Invites.BuildIcs, Invites.ReadLines, Invites.ReadsAs;
    MailReadsBack(m, rand);
    Invites.InviteReadsBack(e, now);
  }
}
