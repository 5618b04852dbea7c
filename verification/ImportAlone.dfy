// A poll that nothing interrupts does to an email what its fate says.
module ImportAlone {
  import opened Wrappers
  import opened EmailImport
  import opened ImportRuns

  /** How many calls a stage is from the end of its email, at most. */
  function Rank(s: Stage): nat {
    match s
    case Resting(_) => 0
    case Filtering(_, _) => 1
    case Declining(_, _) => 1
    case Failing(_, _) => 1
    case Counting(_, _) => 2
    case Refusing(_, _) => 2
    case Importing(_, _) => 3
    case Scoring(_, _, _) => 4
    case Creating(_, _, _, _, _) => 5
    case FindingJob(_, _, _, _) => 6
    case FindingParsed(_, _, _, _) => 7
    case Parsing(_, _, _) => 8
    case FindingSender(_, _, _) => 9
    case Extracting(_, _, _) => 10
    case Uploading(_, _, _) => 11
    case Marking(_, _, _) => 12
    case Recording(_, _, _) => 13
    case Tracking(_, _, _) => 14
    case Classifying(_, _) => 15
    case Linking(_, _) => 16
    case Finding(_) => 17
  }

  /** Every call brings the email nearer to its end, so every poll of a message ends. */
  lemma AwaitDescends(db: Db, c: Connection, s: Stage, a: Answers)
    requires !s.Resting?
    ensures Rank(Await(db, c, s, a).0) < Rank(s)
  {
    hide FindImport, Linked, Known, Lower, HasCv, CvEmail, Eligible;
  }

  /** The outcome and the tables when the same poll makes all remaining calls. */
  function Alone(db: Db, c: Connection, s: Stage, a: Answers): (Outcome, Db)
    decreases Rank(s)
  {
    if s.Resting? then (if s.last.Some? then s.last.value else NotImported, db)
    else
      AwaitDescends(db, c, s, a);
      var (s', db') := Await(db, c, s, a);
      Alone(db', c, s', a)
  }

  /** The tables once `row` has its final status, and the candidate if one was created. */
  function Finished(db: Db, row: nat, c: Connection, f: Fate): Db
    requires row in db.rows
  {
    var closed := PutRow(db, row, Closed(db.rows[row], FinalStatus(f)));
    if Creates(f) then AddCandidate(closed, Candidate(c.company, f.email, Some(row))) else closed
  }

  lemma AloneStep(db: Db, c: Connection, s: Stage, a: Answers)
    requires !s.Resting?
    ensures Alone(db, c, s, a) == Alone(Await(db, c, s, a).1, c, Await(db, c, s, a).0, a)
  {
  }

  lemma AloneCloses(db: Db, c: Connection, e: Email, row: nat, a: Answers)
    requires row in db.rows
    ensures Alone(db, c, Failing(e, row), a) == (Threw, PutRow(db, row, Closed(db.rows[row], FAILED)))
    ensures Alone(db, c, Declining(e, row), a) == (NotImported, PutRow(db, row, Closed(db.rows[row], SKIPPED)))
    ensures Alone(db, c, Refusing(e, row), a) == (NotImported, PutRow(db, row, Closed(db.rows[row], SKIPPED)))
  {
    hide Rank;
  }

  lemma AloneImports(db: Db, c: Connection, e: Email, row: nat, a: Answers)
    requires row in db.rows
    ensures Alone(db, c, Importing(e, row), a) ==
      if a.trackImportFails then (Threw, PutRow(db, row, Closed(db.rows[row], FAILED)))
      else (Imported, PutRow(db, row, Closed(db.rows[row], IMPORTED)))
  {
    hide Rank;
    var imported := PutRow(db, row, Closed(db.rows[row], IMPORTED));
    assert Alone(db, c, Importing(e, row), a) == Alone(imported, c, Counting(e, row), a);
    AloneCloses(imported, c, e, row, a);
    assert imported.rows[row := Closed(imported.rows[row], FAILED)] == db.rows[row := Closed(db.rows[row], FAILED)];
  }

  lemma AwaitCreating(db: Db, c: Connection, e: Email, row: nat, cls: Classification, email: string, job: bool, a: Answers)
    ensures Await(db, c, Creating(e, row, cls, email, job), a) ==
      if a.createFails || !MayLink(db, row) then (Failing(e, row), db)
      else (if HasCv(e) && job then Scoring(e, row, cls) else Importing(e, row), AddCandidate(db, Candidate(c.company, email, Some(row))))
    ensures var created := AddCandidate(db, Candidate(c.company, email, Some(row)));
      Await(created, c, Scoring(e, row, cls), a) == (Importing(e, row), created)
  {
    hide HasCv;
  }

  lemma AloneCreating(db: Db, c: Connection, e: Email, row: nat, cls: Classification, email: string, job: bool, a: Answers)
    requires MayLink(db, row)
    ensures var created := AddCandidate(db, Candidate(c.company, email, Some(row)));
      Alone(db, c, Creating(e, row, cls, email, job), a) ==
        if a.createFails then (Threw, PutRow(db, row, Closed(db.rows[row], FAILED)))
        else if a.trackImportFails then (Threw, PutRow(created, row, Closed(db.rows[row], FAILED)))
        else (Imported, PutRow(created, row, Closed(db.rows[row], IMPORTED)))
  {
    hide Rank, HasCv, Alone, Await, Closed;
    AloneCloses(db, c, e, row, a);
    var created := AddCandidate(db, Candidate(c.company, email, Some(row)));
    AloneImports(created, c, e, row, a);
    AwaitCreating(db, c, e, row, cls, email, job, a);
    AloneStep(db, c, Creating(e, row, cls, email, job), a);
    AloneStep(created, c, Scoring(e, row, cls), a);
  }

  lemma AloneCreates(db: Db, c: Connection, e: Email, row: nat, cls: Classification, email: string, a: Answers)
    requires MayLink(db, row)
    ensures var f := FateOfCandidate(cls, email, a);
      Alone(db, c, ToCreate(e, row, cls, email), a) == (OutcomeOf(f), Finished(db, row, c, f))
  {
    hide Rank, HasCv;
    AloneCloses(db, c, e, row, a);
    AloneCreating(db, c, e, row, cls, email, cls.position != "" && a.job.Some? && a.job.value, a);
    if cls.position != "" {
      assert Alone(db, c, FindingJob(e, row, cls, email), a) == Alone(db, c, if a.job.None? then Failing(e, row) else Creating(e, row, cls, email, a.job.value), a);
    }
  }

  /** From the look-up of the sender on. */
  lemma AloneFindsSender(db: Db, c: Connection, e: Email, row: nat, cls: Classification, a: Answers)
    requires MayLink(db, row) && Eligible(c, cls)
    requires HasCv(e) ==> !a.uploadFails && a.extracted.Some? && a.extracted.value.text != "" && a.extracted.value.confidence >= 30
    ensures var f := FateOfClassified(db, c, e, cls, a);
      Alone(db, c, FindingSender(e, row, cls), a) == (OutcomeOf(f), Finished(db, row, c, f))
  {
    hide Rank, HasCv, Lower, CvEmail, Known, FateOfCandidate, ToCreate;
    AloneCloses(db, c, e, row, a);
    var sender, email := Lower(e.senderEmail), CvEmail(e, a);
    AloneCreates(db, c, e, row, cls, sender, a);
    AloneCreates(db, c, e, row, cls, email, a);
    assert Alone(db, c, FindingSender(e, row, cls), a) ==
      if a.senderFails then Alone(db, c, Failing(e, row), a)
      else if Known(db.candidates, c.company, sender) then Alone(db, c, Refusing(e, row), a)
      else if HasCv(e) then Alone(db, c, Parsing(e, row, cls), a)
      else Alone(db, c, ToCreate(e, row, cls, sender), a);
    assert Alone(db, c, Parsing(e, row, cls), a) == Alone(db, c, FindingParsed(e, row, cls, email), a);
    assert Alone(db, c, FindingParsed(e, row, cls, email), a) ==
      if a.parsedFails then Alone(db, c, Failing(e, row), a)
      else if Known(db.candidates, c.company, email) then Alone(db, c, Refusing(e, row), a)
      else Alone(db, c, ToCreate(e, row, cls, email), a);
  }

  /** From a recorded row on. */
  lemma AloneMarks(db: Db, c: Connection, e: Email, row: nat, cls: Classification, a: Answers)
    requires MayLink(db, row)
    ensures var f := FateOfClassified(db, c, e, cls, a);
      Alone(db, c, AfterRecording(c, e, row, cls), a) == (OutcomeOf(f), Finished(db, row, c, f))
  {
    hide Rank, HasCv, Lower, CvEmail, Known, FateOfCandidate, ToCreate;
    AloneCloses(db, c, e, row, a);
    if Eligible(c, cls) {
      var marked := PutRow(db, row, db.rows[row].(status := PROCESSING));
      var f := FateOfClassified(db, c, e, cls, a);
      assert f == FateOfClassified(marked, c, e, cls, a);
      assert Finished(marked, row, c, f) == Finished(db, row, c, f) by {
        assert marked.rows[row := Closed(db.rows[row], FinalStatus(f))] == db.rows[row := Closed(db.rows[row], FinalStatus(f))];
      }
      AloneCloses(marked, c, e, row, a);
      if HasCv(e) {
        assert Alone(db, c, Marking(e, row, cls), a) == Alone(marked, c, Uploading(e, row, cls), a);
        assert Alone(marked, c, Uploading(e, row, cls), a) == Alone(marked, c, if a.uploadFails then Failing(e, row) else Extracting(e, row, cls), a);
        if !a.uploadFails && a.extracted.Some? && a.extracted.value.text != "" && a.extracted.value.confidence >= 30 {
          AloneFindsSender(marked, c, e, row, cls, a);
          assert Alone(marked, c, Extracting(e, row, cls), a) == Alone(marked, c, FindingSender(e, row, cls), a);
        } else {
          assert !a.uploadFails ==> Alone(marked, c, Extracting(e, row, cls), a) == Alone(marked, c, Failing(e, row), a);
        }
      } else {
        AloneFindsSender(marked, c, e, row, cls, a);
        assert Alone(db, c, Marking(e, row, cls), a) == Alone(marked, c, FindingSender(e, row, cls), a);
      }
    }
  }

  lemma ClassifiedFate(db: Db, c: Connection, e: Email, cls: Classification, a: Answers)
    ensures var f := FateOfClassified(db, c, e, cls, a);
      !f.Ignored? && !f.Aborted? && !f.Filtered? && f.cls == cls
  {
  }

  lemma AloneFilters(db: Db, c: Connection, e: Email, a: Answers)
    ensures Alone(db, c, Filtering(e, FindImport(db, e.messageId)), a) == (NotImported, EffectOf(db, c, e, Filtered))
  {
    hide Rank, FindBelow;
    var found := FindImport(db, e.messageId);
    assert found.Some? ==> found.value in db.rows;
  }

  lemma AloneRecords(db: Db, c: Connection, e: Email, cls: Classification, a: Answers)
    requires Numbered(db) && (FindImport(db, e.messageId).Some? ==> !Linked(db.candidates, FindImport(db, e.messageId).value))
    ensures var f := FateOfClassified(db, c, e, cls, a);
      Alone(db, c, Recording(e, FindImport(db, e.messageId), cls), a) == (OutcomeOf(f), EffectOf(db, c, e, f))
  {
    hide Rank, HasCv, Lower, CvEmail, Known, FateOfCandidate, AfterRecording, FindBelow, Eligible;
    var found, row := FindImport(db, e.messageId), RowOf(db, e);
    var recorded := if found.Some? then PutRow(db, row, PendingRow(e, c, cls)) else AddRow(db, PendingRow(e, c, cls));
    var f := FateOfClassified(db, c, e, cls, a);
    assert f == FateOfClassified(recorded, c, e, cls, a);
    AloneMarks(recorded, c, e, row, cls, a);
    ClassifiedFate(db, c, e, cls, a);
    assert Alone(db, c, Recording(e, found, cls), a) == Alone(recorded, c, AfterRecording(c, e, row, cls), a);
    assert recorded.rows[row := Closed(PendingRow(e, c, cls), FinalStatus(f))] == db.rows[row := Closed(PendingRow(e, c, cls), FinalStatus(f))];
  }

  /** The calls of a poll, made without interruption, have the effect and the outcome of the email's fate. */
  lemma AloneIsTheEffect(db: Db, c: Connection, e: Email, a: Answers)
    requires Numbered(db) && e.isInbox
    ensures var f := FateOf(db, c, e, a);
      Alone(db, c, Finding(e), a) == (OutcomeOf(f), EffectOf(db, c, e, f))
  {
    hide Rank, Lower, FateOfClassified, FindBelow, Linked;
    var found := FindImport(db, e.messageId);
    if !a.findFails && !(found.Some? && (a.linkFails || Linked(db.candidates, found.value))) {
      var s := AfterLookup(c, e, found, a);
      assert Alone(db, c, Finding(e), a) == Alone(db, c, s, a) by {
        if found.Some? { assert Alone(db, c, Finding(e), a) == Alone(db, c, Linking(e, found.value), a); }
      }
      if s.Recording? {
        AloneRecords(db, c, e, s.cls, a);
      } else if s.Classifying? && a.classified.Some? {
        var tracking := Tracking(e, found, a.classified.value);
        assert Alone(db, c, s, a) == Alone(db, c, tracking, a);
        assert Alone(db, c, tracking, a) == Alone(db, c, if a.trackFails then Rest(Threw) else Recording(e, found, a.classified.value), a);
        AloneRecords(db, c, e, a.classified.value, a);
      } else if s.Classifying? {
        assert Alone(db, c, s, a) == Alone(db, c, Rest(Threw), a);
      } else if s.Filtering? {
        AloneFilters(db, c, e, a);
      }
    } else if !a.findFails {
      var linking := Linking(e, found.value);
      assert Alone(db, c, Finding(e), a) == Alone(db, c, linking, a);
      assert Alone(db, c, linking, a) == Alone(db, c, if a.linkFails then Rest(Threw) else Rest(NotImported), a);
    }
  }
}
