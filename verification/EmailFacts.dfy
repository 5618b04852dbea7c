// What becomes of one email, said without the functions that decide it.
module EmailFacts {
  import opened Wrappers
  import opened EmailImport
  import opened ImportIndexes

  // ---------------------------------------------------------------------------
  // Addresses up to case
  // ---------------------------------------------------------------------------

  predicate IsCapital(c: char) {
    'A' <= c <= 'Z'
  }

  /** The same letter, large or small, or the same other character. */
  predicate SameLetter(c: char, d: char) {
    || c == d
    || (IsCapital(c) && d as int == c as int + 32)
    || (IsCapital(d) && c as int == d as int + 32)
  }

  predicate SameUpToCase(s: string, t: string) {
    |s| == |t| && forall i :: 0 <= i < |s| ==> SameLetter(s[i], t[i])
  }

  predicate NoCapitals(s: string) {
    forall i :: 0 <= i < |s| ==> !IsCapital(s[i])
  }

  lemma {:induction false} LowerEach(s: string)
    ensures |Lower(s)| == |s|
    ensures forall i :: 0 <= i < |s| ==> SameLetter(Lower(s)[i], s[i]) && !IsCapital(Lower(s)[i])
    decreases |s|
  {
    if s != "" {
      LowerEach(s[1..]);
      assert Lower(s)[1..] == Lower(s[1..]);
      assert forall i :: 1 <= i < |s| ==> s[i] == s[1..][i - 1] && Lower(s)[i] == Lower(s[1..])[i - 1];
    }
  }

  /** A text is the lower case of another exactly if it is the same up to case and has no capitals. */
  lemma LowerIs(t: string, s: string)
    ensures t == Lower(s) <==> NoCapitals(t) && SameUpToCase(t, s)
  {
    hide Lower;
    LowerEach(s);
    if NoCapitals(t) && SameUpToCase(t, s) {
      forall i | 0 <= i < |t| ensures t[i] == Lower(s)[i] {
        SmallLetterIsOne(t[i], Lower(s)[i], s[i]);
      }
    }
  }

  lemma SmallLetterIsOne(c: char, d: char, e: char)
    requires !IsCapital(c) && !IsCapital(d) && SameLetter(c, e) && SameLetter(d, e)
    ensures c == d
  {
  }

  /** Comparing in lower case is comparing up to case. */
  lemma LowerCompares(s: string, t: string)
    ensures Lower(s) == Lower(t) <==> SameUpToCase(s, t)
  {
    hide Lower;
    LowerEach(s);
    LowerEach(t);
    if SameUpToCase(s, t) {
      forall i | 0 <= i < |s| ensures Lower(s)[i] == Lower(t)[i] {
        BothSmall(Lower(s)[i], Lower(t)[i], s[i], t[i]);
      }
    }
    if Lower(s) == Lower(t) {
      forall i | 0 <= i < |s| ensures SameLetter(s[i], t[i]) {
        OneSmall(Lower(s)[i], s[i], t[i]);
      }
    }
  }

  lemma BothSmall(a: char, b: char, c: char, d: char)
    requires !IsCapital(a) && !IsCapital(b) && SameLetter(a, c) && SameLetter(b, d) && SameLetter(c, d)
    ensures a == b
  {
  }

  lemma OneSmall(a: char, c: char, d: char)
    requires !IsCapital(a) && SameLetter(a, c) && SameLetter(a, d)
    ensures SameLetter(c, d)
  {
  }

  /** The company has a candidate stored in small letters under this address, up to case. */
  ghost predicate IsKnownTo(db: Db, company: nat, address: string) {
    exists k :: k in db.candidates && db.candidates[k].company == company
      && NoCapitals(db.candidates[k].email) && SameUpToCase(db.candidates[k].email, address)
  }

  lemma KnownIsKnown(db: Db, company: nat, address: string)
    ensures Known(db.candidates, company, Lower(address)) <==> IsKnownTo(db, company, address)
  {
    hide Lower, NoCapitals, SameUpToCase;
    forall k | k in db.candidates ensures db.candidates[k].email == Lower(address) <==>
      NoCapitals(db.candidates[k].email) && SameUpToCase(db.candidates[k].email, address)
    {
      LowerIs(db.candidates[k].email, address);
    }
  }

  // ---------------------------------------------------------------------------
  // The fate
  // ---------------------------------------------------------------------------

  ghost predicate IsRowOf(db: Db, row: nat, e: Email) {
    row in db.rows && db.rows[row].messageId == e.messageId
  }

  ghost predicate HasCandidate(db: Db, row: nat) {
    exists k :: k in db.candidates && db.candidates[k].importRow == Some(row)
  }

  /** The message is looked at: it is in the inbox, and what was stored for it could be read. */
  ghost predicate IsRead(db: Db, e: Email, a: Answers) {
    e.isInbox && !a.findFails && ((exists r :: IsRowOf(db, r, e)) ==> !a.linkFails)
  }

  /** And it is not done with: it has no surviving candidate, and another account sent it. */
  ghost predicate IsConsidered(db: Db, c: Connection, e: Email, a: Answers) {
    IsRead(db, e, a) && (forall r :: IsRowOf(db, r, e) ==> !HasCandidate(db, r)) && !SameUpToCase(e.senderEmail, c.email)
  }

  /** The class the prefilter or the classifier gives, if none of the calls fails. */
  function Verdict(a: Answers): Option<Classification> {
    match a.prefilter
    case AutoClassify(confidence, position) => Some(Classification(true, if confidence == 0 then 85 else confidence, position))
    case NeedsAi => if a.trackFails then None else a.classified
    case _ => None
  }

  ghost predicate IsClassed(db: Db, c: Connection, e: Email, a: Answers) {
    IsConsidered(db, c, e, a) && Verdict(a).Some?
  }

  /** An application that the connection imports. */
  ghost predicate IsWanted(db: Db, c: Connection, e: Email, a: Answers) {
    && IsClassed(db, c, e, a) && c.autoImport
    && Verdict(a).value.isJobApplication && Verdict(a).value.confidence >= 80
  }

  predicate BringsCv(e: Email) {
    exists i :: 0 <= i < |e.attachmentTypes| && (e.attachmentTypes[i] == "application/pdf" || e.attachmentTypes[i] == "application/msword"
      || e.attachmentTypes[i] == "application/vnd.openxmlformats-officedocument.wordprocessingml.document")
  }

  predicate CvIsReadable(a: Answers) {
    !a.uploadFails && a.extracted.Some? && a.extracted.value.text != "" && a.extracted.value.confidence >= 30
  }

  /** The address the candidate gets, before it is put in small letters. */
  function AddressOf(e: Email, a: Answers): string {
    if BringsCv(e) && a.parsed.Some? && !a.trackCvFails && a.parsed.value.Some? && a.parsed.value.value != ""
    then a.parsed.value.value else e.senderEmail
  }

  /** The look-ups for a wanted email say that the candidate is there already. */
  ghost predicate IsDuplicate(db: Db, c: Connection, e: Email, a: Answers) {
    && (BringsCv(e) ==> CvIsReadable(a)) && !a.senderFails
    && (IsKnownTo(db, c.company, e.senderEmail) || (BringsCv(e) && !a.parsedFails && IsKnownTo(db, c.company, AddressOf(e, a))))
  }

  /** Every call for a wanted email succeeds up to the new candidate. */
  ghost predicate IsCreated(db: Db, c: Connection, e: Email, a: Answers)
    requires Verdict(a).Some?
  {
    && (BringsCv(e) ==> CvIsReadable(a) && !a.parsedFails) && !a.senderFails
    && !IsKnownTo(db, c.company, e.senderEmail) && !IsKnownTo(db, c.company, AddressOf(e, a))
    && (Verdict(a).value.position != "" ==> a.job.Some?) && !a.createFails
  }

  lemma FoundIsTheRow(db: Db, e: Email)
    requires Indexed(db)
    ensures var found := FindImport(db, e.messageId);
      && (found.Some? <==> exists r :: IsRowOf(db, r, e))
      && (forall r: nat :: IsRowOf(db, r, e) <==> found == Some(r))
      && (found.Some? ==> (Linked(db.candidates, found.value) <==> HasCandidate(db, found.value)))
  {
    hide FindImport;
    LookupIsRight(db, e.messageId);
    var found := FindImport(db, e.messageId);
    if found.Some? { assert IsRowOf(db, found.value, e); }
  }

  lemma CvIsCv(e: Email, a: Answers)
    ensures HasCv(e) <==> BringsCv(e)
    ensures BringsCv(e) ==> CvEmail(e, a) == Lower(AddressOf(e, a))
    ensures !BringsCv(e) ==> AddressOf(e, a) == e.senderEmail
  {
    hide Lower;
    FilesAreFiles(e);
    hide HasCv, BringsCv;
  }

  lemma FilesAreFiles(e: Email)
    ensures HasCv(e) <==> BringsCv(e)
  {
  }

  /** From a class on: which fate, and under which address. */
  lemma ClassedFate(db: Db, c: Connection, e: Email, a: Answers)
    requires Verdict(a).Some?
    ensures var cls := Verdict(a).value;
      var f := FateOfClassified(db, c, e, cls, a);
      var wanted := c.autoImport && cls.isJobApplication && cls.confidence >= 80;
      && f == (if !wanted then Declined(cls)
          else if IsDuplicate(db, c, e, a) then Duplicate(cls)
          else if !IsCreated(db, c, e, a) then Broken(cls)
          else if a.trackImportFails then BrokenLate(cls, Lower(AddressOf(e, a)))
          else Done(cls, Lower(AddressOf(e, a))))
  {
    hide Lower, Known, IsKnownTo, HasCv, CvEmail, BringsCv, AddressOf;
    CvIsCv(e, a);
    KnownIsKnown(db, c.company, e.senderEmail);
    KnownIsKnown(db, c.company, AddressOf(e, a));
  }

  /** A candidate is created, under `address` in small letters. */
  predicate IsImportOf(f: Fate, cls: Classification, address: string) {
    (f.Done? || f.BrokenLate?) && f.cls == cls && NoCapitals(f.email) && SameUpToCase(f.email, address)
  }

  /** What becomes of an email, exactly. */
  lemma FateIsExact(db: Db, c: Connection, e: Email, a: Answers)
    requires Indexed(db)
    ensures var f := FateOf(db, c, e, a);
      if !e.isInbox then f == Ignored
      else if !IsRead(db, e, a) then f == Aborted
      else if !IsConsidered(db, c, e, a) then f == Ignored
      else if a.prefilter == Skip then f == Filtered
      else if Verdict(a).None? then f == Aborted
      else if !IsWanted(db, c, e, a) then f == Declined(Verdict(a).value)
      else if IsDuplicate(db, c, e, a) then f == Duplicate(Verdict(a).value)
      else if !IsCreated(db, c, e, a) then f == Broken(Verdict(a).value)
      else IsImportOf(f, Verdict(a).value, AddressOf(e, a)) && (f.Done? <==> !a.trackImportFails)
  {
    hide Lower, FindImport, FateOfClassified, IsDuplicate, IsCreated, AddressOf, NoCapitals, SameUpToCase, HasCandidate, Linked;
    FoundIsTheRow(db, e);
    LowerCompares(e.senderEmail, c.email);
    if Verdict(a).Some? { ClassedFate(db, c, e, a); }
    LowerIs(Lower(AddressOf(e, a)), AddressOf(e, a));
  }

  // ---------------------------------------------------------------------------
  // The effect
  // ---------------------------------------------------------------------------

  /** The row of the message: the one it has, or the next. */
  ghost predicate IsItsRow(db: Db, e: Email, row: nat) {
    if exists r :: IsRowOf(db, r, e) then IsRowOf(db, row, e) else row == db.next
  }

  /** The row of a classified email: its class, no text, and a status. */
  function ClosedRow(e: Email, c: Connection, cls: Classification, status: Status): Row {
    Row(e.messageId, c.id, cls.isJobApplication, cls.confidence, None, None, status)
  }

  /** The row of an email that the prefilter skips: no class, and the text an earlier row still had. */
  function FilteredRow(db: Db, e: Email, c: Connection, row: nat): Row {
    Row(e.messageId, c.id, false, 0, if row in db.rows then db.rows[row].bodyText else None,
      if row in db.rows then db.rows[row].bodyHtml else None, SKIPPED)
  }

  /** One candidate is added, for the fate's address and linked to `row`. */
  ghost predicate AddsLinked(db: Db, after: Db, c: Connection, f: Fate, row: nat)
    requires f.Done? || f.BrokenLate?
  {
    exists k: nat :: k !in db.candidates && after.candidates == db.candidates[k := Candidate(c.company, f.email, Some(row))]
  }

  /** What the tables hold afterwards, exactly. */
  lemma EffectIsExact(db: Db, c: Connection, e: Email, f: Fate) returns (row: nat)
    requires Indexed(db)
    ensures IsItsRow(db, e, row)
    ensures var after := EffectOf(db, c, e, f);
      if f.Ignored? || f.Aborted? then after == db
      else if f.Filtered? then after.candidates == db.candidates && after.rows == db.rows[row := FilteredRow(db, e, c, row)]
      else if f.Declined? || f.Duplicate? then after.candidates == db.candidates && after.rows == db.rows[row := ClosedRow(e, c, f.cls, SKIPPED)]
      else if f.Broken? then after.candidates == db.candidates && after.rows == db.rows[row := ClosedRow(e, c, f.cls, FAILED)]
      else AddsLinked(db, after, c, f, row) && after.rows == db.rows[row := ClosedRow(e, c, f.cls, if f.Done? then IMPORTED else FAILED)]
  {
    hide FindImport;
    FoundIsTheRow(db, e);
    var found := FindImport(db, e.messageId);
    row := if found.Some? then found.value else db.next;
    assert found.Some? ==> IsRowOf(db, row, e);
    assert Numbered(db) && found.None? ==> row !in db.rows;
    if f.Done? || f.BrokenLate? {
      var after := EffectOf(db, c, e, f);
      var k := after.next - 1;
      assert k !in db.candidates && after.candidates == db.candidates[k := Candidate(c.company, f.email, Some(row))];
    }
  }

  /** And what the caller is told. */
  lemma OutcomeIsExact(f: Fate)
    ensures OutcomeOf(f) == Imported <==> f.Done?
    ensures OutcomeOf(f) == Threw <==> f.Aborted? || f.Broken? || f.BrokenLate?
  {
  }

  // ---------------------------------------------------------------------------
  // What follows for capitals
  // ---------------------------------------------------------------------------

  /** An email is treated alike however its sender's address is capitalised. */
  lemma CaseIsIgnored(db: Db, c: Connection, e: Email, a: Answers, sender: string)
    requires SameUpToCase(e.senderEmail, sender)
    ensures var other := e.(senderEmail := sender);
      && FateOf(db, c, other, a) == FateOf(db, c, e, a)
      && EffectOf(db, c, other, FateOf(db, c, other, a)) == EffectOf(db, c, e, FateOf(db, c, e, a))
  {
    hide Lower, FindImport, Known, Linked, SameUpToCase;
    LowerCompares(e.senderEmail, sender);
    assert HasCv(e.(senderEmail := sender)) == HasCv(e);
  }

  /** Every address that an import stores is in small letters. */
  lemma StoredAddressesAreSmall(db: Db, c: Connection, e: Email, a: Answers, k: nat)
    requires Indexed(db)
    ensures var after := EffectOf(db, c, e, FateOf(db, c, e, a)).candidates;
      k in after && k !in db.candidates ==> NoCapitals(after[k].email) && SameUpToCase(after[k].email, AddressOf(e, a))
  {
    hide FateOf, EffectOf, NoCapitals, SameUpToCase, AddressOf, Indexed, IsDuplicate, IsCreated, IsRead, IsConsidered, IsWanted, IsItsRow;
    FateIsExact(db, c, e, a);
    var _ := EffectIsExact(db, c, e, FateOf(db, c, e, a));
  }

  /**
   * No candidate is created for an address, the sender's or that of the CV, which
   * the company knows up to case; and mail that the account sent itself, up to
   * case, is left alone.
   */
  lemma KnownAddressesAreNotImported(db: Db, c: Connection, e: Email, a: Answers)
    requires Indexed(db)
    ensures IsKnownTo(db, c.company, e.senderEmail) || IsKnownTo(db, c.company, AddressOf(e, a)) || SameUpToCase(e.senderEmail, c.email) ==>
      EffectOf(db, c, e, FateOf(db, c, e, a)).candidates == db.candidates
    ensures SameUpToCase(e.senderEmail, c.email) ==> EffectOf(db, c, e, FateOf(db, c, e, a)) == db
  {
    hide FateOf, EffectOf, IsKnownTo, SameUpToCase, AddressOf, Indexed, IsRead, IsItsRow;
    FateIsExact(db, c, e, a);
    var _ := EffectIsExact(db, c, e, FateOf(db, c, e, a));
  }

  // ---------------------------------------------------------------------------
  // Counting a batch
  // ---------------------------------------------------------------------------

  /** The outcome of each message that was not removed, in order. */
  ghost function Outcomes(db: Db, c: Connection, messages: seq<Message>): seq<Outcome> {
    if messages == [] then []
    else
      var init, m := messages[..|messages| - 1], messages[|messages| - 1];
      Outcomes(db, c, init) +
        if m.removed then []
        else if m.normalized.None? then [Threw]
        else [OutcomeOf(FateOf(Sync(db, c, init).db, c, m.normalized.value, m.answers))]
  }

  /** Each counter counts its outcome: imported, skipped, and errors; processed are the first two. */
  lemma {:induction false} SyncCounts(db: Db, c: Connection, messages: seq<Message>)
    ensures var s := Sync(db, c, messages);
      var all := multiset(Outcomes(db, c, messages));
      && s.imported == all[Imported] && s.skipped == all[NotImported] && s.errors == all[Threw] && s.processed == all[Imported] + all[NotImported]
    decreases |messages|
  {
    hide FateOf, EffectOf, OutcomeOf;
    if messages != [] {
      var init, m := messages[..|messages| - 1], messages[|messages| - 1];
      SyncCounts(db, c, init);
      var before, all := Outcomes(db, c, init), Outcomes(db, c, messages);
      if m.removed {
        assert all == before;
      } else {
        var o := if m.normalized.None? then Threw else OutcomeOf(FateOf(Sync(db, c, init).db, c, m.normalized.value, m.answers));
        assert all == before + [o];
        OneMore(before, o);
      }
    }
  }

  lemma OneMore(outcomes: seq<Outcome>, o: Outcome)
    ensures forall p :: multiset(outcomes + [o])[p] == multiset(outcomes)[p] + if p == o then 1 else 0
  {
  }
}
