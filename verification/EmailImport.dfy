// Importing one email: the rows it passes through, call by call and as one effect.
module EmailImport {
  import opened Wrappers

  // ---------------------------------------------------------------------------
  // Tables
  // ---------------------------------------------------------------------------

  datatype Status = PENDING | PROCESSING | IMPORTED | SKIPPED | FAILED

  datatype Row = Row(messageId: string, connection: nat, isJobApplication: bool, confidence: int,
    bodyText: Option<string>, bodyHtml: Option<string>, status: Status)

  datatype Candidate = Candidate(company: nat, email: string, importRow: Option<nat>)

  datatype Db = Db(rows: map<nat, Row>, candidates: map<nat, Candidate>, next: nat)

  datatype Provider = GMAIL | OUTLOOK

  datatype Connection = Connection(id: nat, provider: Provider, company: nat, email: string, autoImport: bool)

  datatype Email = Email(messageId: string, senderEmail: string, bodyText: string, bodyHtml: string,
    attachmentTypes: seq<string>, isInbox: bool)

  // ---------------------------------------------------------------------------
  // What the foreign calls answer
  // ---------------------------------------------------------------------------

  datatype Classification = Classification(isJobApplication: bool, confidence: int, position: string)

  datatype Prefilter = Throws | Skip | AutoClassify(confidence: int, position: string) | NeedsAi

  datatype Extraction = Extraction(text: string, confidence: int)

  /** One answer for each call that can fail or that the model does not compute; None and `Fails` stand for a throw. */
  datatype Answers = Answers(findFails: bool, linkFails: bool, prefilter: Prefilter, classified: Option<Classification>,
    trackFails: bool, uploadFails: bool, extracted: Option<Extraction>, senderFails: bool,
    parsed: Option<Option<string>>, trackCvFails: bool, parsedFails: bool, job: Option<bool>, createFails: bool,
    trackImportFails: bool)

  datatype Outcome = Imported | NotImported | Threw

  // ---------------------------------------------------------------------------
  // Queries
  // ---------------------------------------------------------------------------

  function Lower(s: string): string {
    if s == "" then "" else [if 'A' <= s[0] <= 'Z' then s[0] - 'A' + 'a' else s[0]] + Lower(s[1..])
  }

  function FindBelow(rows: map<nat, Row>, messageId: string, n: nat): (r: Option<nat>)
    ensures r.Some? ==> r.value in rows && r.value < n && rows[r.value].messageId == messageId
    ensures r.None? ==> forall i :: i in rows && i < n ==> rows[i].messageId != messageId
  {
    if n == 0 then None
    else if n - 1 in rows && rows[n - 1].messageId == messageId then Some(n - 1)
    else FindBelow(rows, messageId, n - 1)
  }

  function FindImport(db: Db, messageId: string): Option<nat> {
    FindBelow(db.rows, messageId, db.next)
  }

  predicate Linked(candidates: map<nat, Candidate>, row: nat) {
    exists c :: c in candidates && candidates[c].importRow == Some(row)
  }

  predicate Known(candidates: map<nat, Candidate>, company: nat, email: string) {
    exists c :: c in candidates && candidates[c].company == company && candidates[c].email == email
  }

  const THRESHOLD := 80

  predicate IsCvType(t: string) {
    t == "application/pdf" || t == "application/msword"
    || t == "application/vnd.openxmlformats-officedocument.wordprocessingml.document"
  }

  predicate HasCv(e: Email) {
    exists i :: 0 <= i < |e.attachmentTypes| && IsCvType(e.attachmentTypes[i])
  }

  predicate Eligible(c: Connection, cls: Classification) {
    c.autoImport && cls.isJobApplication && cls.confidence >= THRESHOLD
  }

  function AutoClass(confidence: int, position: string): Classification {
    Classification(true, if confidence == 0 then 85 else confidence, position)
  }

  // ---------------------------------------------------------------------------
  // Writes
  // ---------------------------------------------------------------------------

  function SkipRow(before: Option<Row>, e: Email, c: Connection): Row {
    Row(e.messageId, c.id, false, 0, if before.Some? then before.value.bodyText else None, if before.Some? then before.value.bodyHtml else None, SKIPPED)
  }

  function PendingRow(e: Email, c: Connection, cls: Classification): Row {
    Row(e.messageId, c.id, cls.isJobApplication, cls.confidence, Some(e.bodyText), Some(e.bodyHtml), PENDING)
  }

  function Closed(row: Row, status: Status): Row {
    row.(status := status, bodyText := None, bodyHtml := None)
  }

  function PutRow(db: Db, row: nat, value: Row): Db {
    db.(rows := db.rows[row := value])
  }

  function AddRow(db: Db, value: Row): Db {
    db.(rows := db.rows[db.next := value], next := db.next + 1)
  }

  function AddCandidate(db: Db, value: Candidate): Db {
    db.(candidates := db.candidates[db.next := value], next := db.next + 1)
  }

  // ---------------------------------------------------------------------------
  // The fate of an email, and its effect
  // ---------------------------------------------------------------------------

  /** How the processing of one email ends. */
  datatype Fate =
    | Ignored                                           // nothing written, nothing imported
    | Aborted                                           // nothing written, the call throws
    | Filtered                                          // skipped by the prefilter
    | Declined(cls: Classification)                     // recorded, not imported automatically
    | Duplicate(cls: Classification)                    // recorded, candidate already known
    | Broken(cls: Classification)                       // recorded, failed before a candidate was created
    | BrokenLate(cls: Classification, email: string)    // a candidate was created, then a call failed
    | Done(cls: Classification, email: string)          // a candidate was created

  function FateOf(db: Db, c: Connection, e: Email, a: Answers): Fate {
    if !e.isInbox then Ignored
    else if a.findFails then Aborted
    else
      var found := FindImport(db, e.messageId);
      if found.Some? && a.linkFails then Aborted
      else if found.Some? && Linked(db.candidates, found.value) then Ignored
      else if Lower(e.senderEmail) == Lower(c.email) then Ignored
      else
        match a.prefilter
        case Throws => Aborted
        case Skip => Filtered
        case AutoClassify(confidence, position) => FateOfClassified(db, c, e, AutoClass(confidence, position), a)
        case NeedsAi =>
          if a.classified.None? || a.trackFails then Aborted else FateOfClassified(db, c, e, a.classified.value, a)
  }

  function FateOfClassified(db: Db, c: Connection, e: Email, cls: Classification, a: Answers): Fate {
    if !Eligible(c, cls) then Declined(cls)
    else if HasCv(e) then FateOfCv(db, c, e, cls, a)
    else if a.senderFails then Broken(cls)
    else if Known(db.candidates, c.company, Lower(e.senderEmail)) then Duplicate(cls)
    else FateOfCandidate(cls, Lower(e.senderEmail), a)
  }

  function FateOfCv(db: Db, c: Connection, e: Email, cls: Classification, a: Answers): Fate {
    if a.uploadFails || a.extracted.None? || a.extracted.value.text == "" || a.extracted.value.confidence < 30 || a.senderFails
    then Broken(cls)
    else if Known(db.candidates, c.company, Lower(e.senderEmail)) then Duplicate(cls)
    else if a.parsedFails then Broken(cls)
    else if Known(db.candidates, c.company, CvEmail(e, a)) then Duplicate(cls)
    else FateOfCandidate(cls, CvEmail(e, a), a)
  }

  /** The address of a parsed CV; the sender's if parsing, or counting it, failed or found none. */
  function CvEmail(e: Email, a: Answers): string {
    if a.parsed.Some? && !a.trackCvFails && a.parsed.value.Some? && a.parsed.value.value != ""
    then Lower(a.parsed.value.value)
    else Lower(e.senderEmail)
  }

  function FateOfCandidate(cls: Classification, email: string, a: Answers): Fate {
    if (cls.position != "" && a.job.None?) || a.createFails then Broken(cls)
    else if a.trackImportFails then BrokenLate(cls, email)
    else Done(cls, email)
  }

  function OutcomeOf(f: Fate): Outcome {
    if f.Done? then Imported else if f.Aborted? || f.Broken? || f.BrokenLate? then Threw else NotImported
  }

  function FinalStatus(f: Fate): Status {
    if f.Done? then IMPORTED else if f.Broken? || f.BrokenLate? then FAILED else SKIPPED
  }

  /** The row an email is recorded on: the one of an earlier attempt, or a new one. */
  function RowOf(db: Db, e: Email): nat {
    var found := FindImport(db, e.messageId);
    if found.Some? then found.value else db.next
  }

  /** The tables once the email has met its fate. */
  function EffectOf(db: Db, c: Connection, e: Email, f: Fate): Db {
    if f.Ignored? || f.Aborted? then db
    else
      var found := FindImport(db, e.messageId);
      var row := RowOf(db, e);
      var value :=
        if f.Filtered? then SkipRow(if found.Some? then Some(db.rows[found.value]) else None, e, c)
        else Closed(PendingRow(e, c, f.cls), FinalStatus(f));
      var recorded := if found.Some? then PutRow(db, row, value) else AddRow(db, value);
      if f.Done? || f.BrokenLate? then AddCandidate(recorded, Candidate(c.company, f.email, Some(row))) else recorded
  }

  // ---------------------------------------------------------------------------
  // What an email leaves behind
  // ---------------------------------------------------------------------------

  predicate Terminal(s: Status) {
    s == IMPORTED || s == SKIPPED || s == FAILED
  }

  /** Finished, and without the text of the email. */
  predicate Clean(row: Row) {
    Terminal(row.status) && row.bodyText == None && row.bodyHtml == None
  }

  ghost predicate AllClean(db: Db) {
    forall r :: r in db.rows ==> Clean(db.rows[r])
  }

  /** Bodies never outlive processing, whichever call throws; and only the row of this email is touched. */
  lemma ProcessingLeavesCleanRows(db: Db, c: Connection, e: Email, a: Answers)
    requires AllClean(db)
    ensures AllClean(EffectOf(db, c, e, FateOf(db, c, e, a)))
    ensures forall r :: r in db.rows && r != RowOf(db, e) ==>
      r in EffectOf(db, c, e, FateOf(db, c, e, a)).rows && EffectOf(db, c, e, FateOf(db, c, e, a)).rows[r] == db.rows[r]
  {
    hide FateOf;
  }

  /** Identifiers come from one counter, and links lead to rows. */
  ghost predicate Numbered(db: Db) {
    && (forall r :: r in db.rows ==> r < db.next)
    && (forall k :: k in db.candidates ==> k < db.next && (db.candidates[k].importRow.Some? ==> db.candidates[k].importRow.value in db.rows))
  }

  predicate Creates(f: Fate) {
    f.Done? || f.BrokenLate?
  }

  lemma OnlyFreshCandidates(db: Db, c: Connection, e: Email, a: Answers)
    requires Numbered(db)
    ensures var f := FateOf(db, c, e, a);
      Creates(f) ==> Eligible(c, f.cls) && !Linked(db.candidates, RowOf(db, e)) && !Known(db.candidates, c.company, f.email)
  {
    hide FindImport, Lower, HasCv, Known;
    assert FindImport(db, e.messageId).None? ==> RowOf(db, e) !in db.rows;
  }

  lemma EffectAddsOne(db: Db, c: Connection, e: Email, f: Fate)
    requires Numbered(db)
    ensures var before, after := db.candidates, EffectOf(db, c, e, f).candidates;
      if Creates(f) then after.Keys - before.Keys == {EffectOf(db, c, e, f).next - 1}
        && after == before[EffectOf(db, c, e, f).next - 1 := Candidate(c.company, f.email, Some(RowOf(db, e)))]
        && EffectOf(db, c, e, f).next - 1 !in before
      else after == before
  {
    hide FindImport;
  }

  /**
   * A candidate is created exactly when the email is imported or fails afterwards:
   * one, known to nobody before, and the only one linked to the row of the email.
   */
  lemma CreatesAtMostOne(db: Db, c: Connection, e: Email, a: Answers)
    requires Numbered(db)
    ensures var f := FateOf(db, c, e, a);
      var after := EffectOf(db, c, e, f);
      var created := after.candidates.Keys - db.candidates.Keys;
      && |created| == (if f.Done? || f.BrokenLate? then 1 else 0)
      && (forall k :: k in db.candidates ==> k in after.candidates && after.candidates[k] == db.candidates[k])
      && (forall k :: k in created ==> after.candidates[k].importRow == Some(RowOf(db, e)) && !Linked(db.candidates, RowOf(db, e)) && !Known(db.candidates, c.company, after.candidates[k].email))
  {
    hide FateOf, EffectOf, Known, Linked, RowOf, Numbered;
    EffectAddsOne(db, c, e, FateOf(db, c, e, a));
    OnlyFreshCandidates(db, c, e, a);
  }

  lemma {:induction false} FindTop(rows: map<nat, Row>, messageId: string, n: nat, row: nat)
    requires row in rows && row < n && rows[row].messageId == messageId
    requires forall r :: r in rows && row < r ==> rows[r].messageId != messageId
    ensures FindBelow(rows, messageId, n) == Some(row)
    decreases n
  {
    if n - 1 != row { FindTop(rows, messageId, n - 1, row); }
  }

  lemma {:induction false} FindIsTop(rows: map<nat, Row>, messageId: string, n: nat)
    ensures FindBelow(rows, messageId, n).Some? ==>
      forall r :: r in rows && FindBelow(rows, messageId, n).value < r < n ==> rows[r].messageId != messageId
    decreases n
  {
    if n > 0 && !(n - 1 in rows && rows[n - 1].messageId == messageId) { FindIsTop(rows, messageId, n - 1); }
  }

  lemma RecordedRowIsFound(db: Db, c: Connection, e: Email, f: Fate)
    requires Numbered(db) && Creates(f)
    ensures FindImport(EffectOf(db, c, e, f), e.messageId) == Some(RowOf(db, e))
  {
    hide FindBelow;
    var after := EffectOf(db, c, e, f);
    FindIsTop(db.rows, e.messageId, db.next);
    FindTop(after.rows, e.messageId, after.next, RowOf(db, e));
  }

  /** Once an email has produced a candidate, delivering it again changes nothing, whatever the calls answer. */
  lemma RedeliveryIsIgnored(db: Db, c: Connection, e: Email, a: Answers, c': Connection, a': Answers)
    requires Numbered(db) && Creates(FateOf(db, c, e, a))
    ensures var after := EffectOf(db, c, e, FateOf(db, c, e, a));
      EffectOf(after, c', e, FateOf(after, c', e, a')) == after
  {
    hide FindImport, Known, RowOf, Lower, Numbered, FateOfClassified;
    var f := FateOf(db, c, e, a);
    var after := EffectOf(db, c, e, f);
    RecordedRowIsFound(db, c, e, f);
    EffectAddsOne(db, c, e, f);
    assert Linked(after.candidates, RowOf(db, e)) by {
      assert after.candidates[after.next - 1].importRow == Some(RowOf(db, e));
    }
  }

  // ---------------------------------------------------------------------------
  // A batch of messages
  // ---------------------------------------------------------------------------

  /** A delivered message: removed, or normalised to an email unless that fails, with the answers met while processing it. */
  datatype Message = Message(removed: bool, normalized: Option<Email>, answers: Answers)

  datatype Synced = Synced(db: Db, processed: nat, imported: nat, skipped: nat, errors: nat)

  /** The tables and counts after processing the messages in order. */
  function Sync(db: Db, c: Connection, messages: seq<Message>): Synced {
    if messages == [] then Synced(db, 0, 0, 0, 0)
    else
      var s, m := Sync(db, c, messages[..|messages| - 1]), messages[|messages| - 1];
      if m.removed then s
      else if m.normalized.None? then s.(errors := s.errors + 1)
      else
        var f := FateOf(s.db, c, m.normalized.value, m.answers);
        var done := s.(db := EffectOf(s.db, c, m.normalized.value, f));
        match OutcomeOf(f)
        case Imported => done.(processed := s.processed + 1, imported := s.imported + 1)
        case NotImported => done.(processed := s.processed + 1, skipped := s.skipped + 1)
        case Threw => done.(errors := s.errors + 1)
  }

  function Delivered(messages: seq<Message>): nat {
    if messages == [] then 0
    else Delivered(messages[..|messages| - 1]) + if messages[|messages| - 1].removed then 0 else 1
  }

  /** Every message that is not removed is counted once, and no message leaves an unfinished row or a body. */
  lemma {:induction false} SyncAccounts(db: Db, c: Connection, messages: seq<Message>)
    ensures var s := Sync(db, c, messages);
      s.imported + s.skipped == s.processed && s.processed + s.errors == Delivered(messages)
    ensures AllClean(db) ==> AllClean(Sync(db, c, messages).db)
    decreases |messages|
  {
    hide FateOf, EffectOf, AllClean;
    if messages != [] {
      var s, m := Sync(db, c, messages[..|messages| - 1]), messages[|messages| - 1];
      SyncAccounts(db, c, messages[..|messages| - 1]);
      if m.normalized.Some? && AllClean(s.db) {
        ProcessingLeavesCleanRows(s.db, c, m.normalized.value, m.answers);
      }
    }
  }
}
