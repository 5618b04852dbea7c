// The services that poll a mailbox and import its emails, over the tables they update.
module EmailProcessing {
  import opened Wrappers
  import opened EmailImport

  class EmailProcessingService {
    var tables: Db

    constructor (initial: Db)
      ensures tables == initial
    {
      tables := initial;
    }

    method UpdateRow(row: nat, status: Status)
      requires row in tables.rows
      modifies this
      ensures tables == PutRow(old(tables), row, old(tables).rows[row].(status := status))
    {
      tables := PutRow(tables, row, tables.rows[row].(status := status));
    }

    /** Sets a final status and drops both bodies. */
    method CloseRow(row: nat, status: Status)
      requires row in tables.rows
      modifies this
      ensures tables == PutRow(old(tables), row, Closed(old(tables).rows[row], status))
    {
      tables := PutRow(tables, row, Closed(tables.rows[row], status));
    }

    /** Updates the row of an earlier attempt, or adds one. */
    method Record(found: Option<nat>, value: Row) returns (row: nat)
      modifies this
      ensures row == (if found.Some? then found.value else old(tables).next)
      ensures tables == if found.Some? then PutRow(old(tables), row, value) else AddRow(old(tables), value)
    {
      if found.Some? {
        row := found.value;
        tables := PutRow(tables, row, value);
      } else {
        row := tables.next;
        tables := AddRow(tables, value);
      }
    }

    /** Looks up the job of a detected position, then creates the candidate. */
    method CreateCandidate(row: nat, c: Connection, cls: Classification, email: string, a: Answers) returns (r: Result<bool, string>)
      modifies this
      ensures r.Err? <==> FateOfCandidate(cls, email, a).Broken?
      ensures r.Ok? ==> r.value && tables == AddCandidate(old(tables), Candidate(c.company, email, Some(row)))
      ensures r.Err? ==> tables == old(tables)
    {
      if cls.position != "" && a.job.None? {
        return Err("job lookup");
      }
      if a.createFails {
        return Err("candidate");
      }
      tables := AddCandidate(tables, Candidate(c.company, email, Some(row)));
      return Ok(true);
    }

    method ProcessCvAttachment(row: nat, c: Connection, e: Email, cls: Classification, a: Answers) returns (r: Result<bool, string>)
      modifies this
      ensures var f := FateOfCv(old(tables), c, e, cls, a);
        && (r.Err? <==> f.Broken?) && (r.Ok? ==> r.value == Creates(f)) && (r.Err? || f.Duplicate? || Creates(f))
        && tables == if Creates(f) then AddCandidate(old(tables), Candidate(c.company, f.email, Some(row))) else old(tables)
    {
      if a.uploadFails {
        return Err("upload");
      }
      if a.extracted.None? || a.extracted.value.text == "" || a.extracted.value.confidence < 30 {
        return Err("Could not extract text from CV attachment");
      }
      if a.senderFails {
        return Err("candidate lookup");
      }
      if Known(tables.candidates, c.company, Lower(e.senderEmail)) {
        return Ok(false);
      }
      var email := "";
      if a.parsed.Some? && !a.trackCvFails && a.parsed.value.Some? {
        email := Lower(a.parsed.value.value);
      }
      if email == "" {
        email := Lower(e.senderEmail);
      }
      if a.parsedFails {
        return Err("candidate lookup");
      }
      if Known(tables.candidates, c.company, email) {
        return Ok(false);
      }
      r := CreateCandidate(row, c, cls, email, a);
    }

    method CreateCandidateFromEmail(row: nat, c: Connection, e: Email, cls: Classification, a: Answers) returns (r: Result<bool, string>)
      modifies this
      ensures r.Err? <==> a.senderFails || (!Known(old(tables).candidates, c.company, Lower(e.senderEmail)) && FateOfCandidate(cls, Lower(e.senderEmail), a).Broken?)
      ensures r == Ok(false) <==> !a.senderFails && Known(old(tables).candidates, c.company, Lower(e.senderEmail))
      ensures tables == if r == Ok(true) then AddCandidate(old(tables), Candidate(c.company, Lower(e.senderEmail), Some(row))) else old(tables)
    {
      if a.senderFails {
        return Err("candidate lookup");
      }
      if Known(tables.candidates, c.company, Lower(e.senderEmail)) {
        return Ok(false);
      }
      r := CreateCandidate(row, c, cls, Lower(e.senderEmail), a);
    }

    /** Every step that the source takes, in its order, has the effect of the fate of the email. */
    method ProcessNormalizedEmail(e: Email, c: Connection, a: Answers) returns (outcome: Outcome)
      modifies this
      ensures tables == EffectOf(old(tables), c, e, FateOf(old(tables), c, e, a))
      ensures outcome == OutcomeOf(FateOf(old(tables), c, e, a))
    {
      if !e.isInbox {
        return NotImported;
      }
      if a.findFails {
        return Threw;
      }
      var found := FindImport(tables, e.messageId);
      if found.Some? {
        if a.linkFails {
          return Threw;
        }
        if Linked(tables.candidates, found.value) {
          return NotImported;
        }
      }
      if Lower(e.senderEmail) == Lower(c.email) {
        return NotImported;
      }
      var cls: Classification;
      match a.prefilter {
        case Throws => return Threw;
        case Skip =>
          var _ := Record(found, SkipRow(if found.Some? then Some(tables.rows[found.value]) else None, e, c));
          return NotImported;
        case AutoClassify(confidence, position) => cls := AutoClass(confidence, position);
        case NeedsAi =>
          if a.classified.None? || a.trackFails {
            return Threw;
          }
          cls := a.classified.value;
      }
      outcome := ImportClassified(found, e, c, cls, a);
    }

    /** Imports an email that is recorded on `row`: the candidate, then the final status. */
    method ImportEligible(row: nat, e: Email, c: Connection, cls: Classification, a: Answers) returns (outcome: Outcome)
      requires row in tables.rows && Eligible(c, cls)
      modifies this
      ensures var f := FateOfClassified(old(tables), c, e, cls, a);
        && outcome == OutcomeOf(f)
        && tables.rows == old(tables).rows[row := Closed(old(tables).rows[row], FinalStatus(f))]
        && tables.(rows := map[]) == (if Creates(f) then AddCandidate(old(tables), Candidate(c.company, f.email, Some(row))) else old(tables)).(rows := map[])
    {
      hide Known, Lower, HasCv, IsCvType;
      ghost var before := tables;
      UpdateRow(row, PROCESSING);
      var created;
      if HasCv(e) {
        created := ProcessCvAttachment(row, c, e, cls, a);
      } else {
        created := CreateCandidateFromEmail(row, c, e, cls, a);
      }
      assert tables.rows == before.rows[row := before.rows[row].(status := PROCESSING)];
      if created.Err? {
        CloseRow(row, FAILED);
        return Threw;
      }
      if !created.value {
        CloseRow(row, SKIPPED);
        return NotImported;
      }
      CloseRow(row, IMPORTED);
      if a.trackImportFails {
        CloseRow(row, FAILED);
        return Threw;
      }
      return Imported;
    }

    /** Records a classified email and, if it is eligible, imports it. */
    method ImportClassified(found: Option<nat>, e: Email, c: Connection, cls: Classification, a: Answers) returns (outcome: Outcome)
      requires found == FindImport(tables, e.messageId)
      modifies this
      ensures tables == EffectOf(old(tables), c, e, FateOfClassified(old(tables), c, e, cls, a))
      ensures outcome == OutcomeOf(FateOfClassified(old(tables), c, e, cls, a))
    {
      hide FindImport, Known, Lower, HasCv, IsCvType;
      ghost var before, f := tables, FateOfClassified(tables, c, e, cls, a);
      var row := Record(found, PendingRow(e, c, cls));
      if Eligible(c, cls) {
        FateIgnoresRows(before, tables, c, e, cls, a);
        outcome := ImportEligible(row, e, c, cls, a);
      } else {
        CloseRow(row, SKIPPED);
        outcome := NotImported;
      }
      assert tables.rows == before.rows[row := Closed(PendingRow(e, c, cls), FinalStatus(f))];
    }
  }

  datatype SyncResult = SyncResult(processed: nat, imported: nat, skipped: nat, errors: nat)

  /** The poll of one provider's mailboxes. */
  class MonitorService {
    var pollingConnections: set<nat>
    const processing: EmailProcessingService

    constructor (service: EmailProcessingService)
      ensures processing == service && pollingConnections == {}
    {
      processing := service;
      pollingConnections := {};
    }

    /**
     * Refuses a connection that is being polled; otherwise marks it, processes the
     * messages in order, and unmarks it on every way out.
     */
    method PollEmailsForConnection(id: nat, company: Option<nat>, found: Option<Connection>, fetched: Option<seq<Message>>, closingFails: bool)
        returns (r: Result<SyncResult, string>)
      modifies this, processing
      ensures pollingConnections == old(pollingConnections)
      ensures id in old(pollingConnections) ==> r == Ok(SyncResult(0, 0, 0, 0)) && processing.tables == old(processing.tables)
      ensures id !in old(pollingConnections) && (found.None? || (company.Some? && company.value != found.value.company)) ==>
        r.Err? && processing.tables == old(processing.tables)
      ensures id !in old(pollingConnections) && found.Some? && (company.None? || company.value == found.value.company) ==>
        var s := Sync(old(processing.tables), found.value, if fetched.Some? then fetched.value else []);
        && processing.tables == s.db
        && r == Ok(SyncResult(s.processed, s.imported, s.skipped, s.errors + if fetched.None? || closingFails then 1 else 0))
    {
      if id in pollingConnections {
        return Ok(SyncResult(0, 0, 0, 0));
      }
      pollingConnections := pollingConnections + {id};
      r := PollMarked(company, found, fetched, closingFails);
      pollingConnections := pollingConnections - {id};
    }

    method PollMarked(company: Option<nat>, found: Option<Connection>, fetched: Option<seq<Message>>, closingFails: bool)
        returns (r: Result<SyncResult, string>)
      modifies processing
      ensures found.None? || (company.Some? && company.value != found.value.company) ==> r.Err? && processing.tables == old(processing.tables)
      ensures found.Some? && (company.None? || company.value == found.value.company) ==>
        var s := Sync(old(processing.tables), found.value, if fetched.Some? then fetched.value else []);
        && processing.tables == s.db
        && r == Ok(SyncResult(s.processed, s.imported, s.skipped, s.errors + if fetched.None? || closingFails then 1 else 0))
    {
      if found.None? {
        return Err("Email connection not found");
      }
      var c := found.value;
      if company.Some? && c.company != company.value {
        return Err("Connection does not belong to this company");
      }
      var processed, imported, skipped, errors := 0, 0, 0, 0;
      if fetched.None? {
        return Ok(SyncResult(0, 0, 0, 1));
      }
      var messages := fetched.value;
      for i := 0 to |messages|
        invariant Sync(old(processing.tables), c, messages[..i]) == Synced(processing.tables, processed, imported, skipped, errors)
      {
        var m := messages[i];
        assert messages[..i + 1][..i] == messages[..i];
        if m.removed {
          continue;
        }
        if m.normalized.None? {
          errors := errors + 1;
          continue;
        }
        var outcome := processing.ProcessNormalizedEmail(m.normalized.value, c, m.answers);
        match outcome {
          case Imported => processed, imported := processed + 1, imported + 1;
          case NotImported => processed, skipped := processed + 1, skipped + 1;
          case Threw => errors := errors + 1;
        }
      }
      assert messages[..|messages|] == messages;
      if closingFails {
        errors := errors + 1;
      }
      return Ok(SyncResult(processed, imported, skipped, errors));
    }
  }

  /** What becomes of a classified email depends on the candidates only. */
  lemma FateIgnoresRows(db: Db, other: Db, c: Connection, e: Email, cls: Classification, a: Answers)
    requires db.candidates == other.candidates
    ensures FateOfClassified(db, c, e, cls, a) == FateOfClassified(other, c, e, cls, a)
  {
  }
}
