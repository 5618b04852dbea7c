// What the unique indexes of the schema keep, over every interleaving of polls.
module ImportIndexes {
  import opened Wrappers
  import opened EmailImport
  import opened ImportRuns

  ghost predicate OneRowPerMessage(db: Db) {
    forall r, q :: r in db.rows && q in db.rows && db.rows[r].messageId == db.rows[q].messageId ==> r == q
  }

  ghost predicate OneLinkPerRow(db: Db) {
    forall k, l ::
      (k in db.candidates && l in db.candidates && db.candidates[k].importRow.Some? && db.candidates[k].importRow == db.candidates[l].importRow)
      ==> k == l
  }

  ghost predicate Indexed(db: Db) {
    Numbered(db) && OneRowPerMessage(db) && OneLinkPerRow(db)
  }

  ghost predicate NoRowFor(db: Db, messageId: string) {
    forall r :: r in db.rows ==> db.rows[r].messageId != messageId
  }

  /** `row` is or was the row of `messageId`, and can be that of no other. */
  predicate RowIs(db: Db, row: nat, messageId: string) {
    row < db.next && (row in db.rows ==> db.rows[row].messageId == messageId)
  }

  /** The row a poll has looked up or recorded. */
  function RowOfStage(s: Stage): Option<nat> {
    if s.Resting? || s.Finding? then None
    else if s.Filtering? || s.Classifying? || s.Tracking? || s.Recording? then s.found
    else Some(s.row)
  }

  ghost predicate Remembers(db: Db, s: Stage) {
    RowOfStage(s).Some? ==> RowIs(db, RowOfStage(s).value, s.e.messageId)
  }

  /** Identifiers are not reused, and no row changes its message. */
  ghost predicate Grows(db: Db, db': Db) {
    && db.next <= db'.next
    && (forall r :: r in db'.rows && r < db.next ==> r in db.rows && db'.rows[r].messageId == db.rows[r].messageId)
  }

  // ---------------------------------------------------------------------------
  // Writes
  // ---------------------------------------------------------------------------

  lemma PutIsIndexed(db: Db, row: nat, value: Row)
    requires Indexed(db) && row in db.rows && value.messageId == db.rows[row].messageId
    ensures Indexed(PutRow(db, row, value)) && Grows(db, PutRow(db, row, value))
  {
  }

  lemma AddRowIsIndexed(db: Db, value: Row)
    requires Indexed(db) && NoRowFor(db, value.messageId)
    ensures Indexed(AddRow(db, value)) && Grows(db, AddRow(db, value)) && !Linked(db.candidates, db.next)
  {
  }

  lemma AddCandidateIsIndexed(db: Db, value: Candidate)
    requires Indexed(db) && (value.importRow.Some? ==> MayLink(db, value.importRow.value))
    ensures Indexed(AddCandidate(db, value)) && Grows(db, AddCandidate(db, value))
  {
  }

  lemma LookupIsRight(db: Db, messageId: string)
    requires Numbered(db)
    ensures FindImport(db, messageId).None? <==> NoRowFor(db, messageId)
    ensures FindImport(db, messageId).Some? ==> FindImport(db, messageId).value in db.rows && RowIs(db, FindImport(db, messageId).value, messageId)
  {
  }

  lemma SameIsIndexed(db: Db)
    requires Indexed(db)
    ensures Grows(db, db) && Numbered(db)
  {
  }

  predicate Overwrites(s: Stage) {
    s.Marking? || s.Declining? || s.Importing? || s.Refusing? || s.Failing?
  }

  lemma OverwritingIsIndexed(db: Db, c: Connection, s: Stage, a: Answers)
    requires Indexed(db) && Remembers(db, s) && Overwrites(s)
    ensures var (s', db') := Await(db, c, s, a); Indexed(db') && Grows(db, db') && Remembers(db', s')
  {
    hide Lower, HasCv, Indexed, Closed;
    SameIsIndexed(db);
    ClosedKeepsMessage();
    if s.row in db.rows {
      PutIsIndexed(db, s.row, if s.Marking? then db.rows[s.row].(status := PROCESSING)
        else Closed(db.rows[s.row], if s.Importing? then IMPORTED else if s.Failing? then FAILED else SKIPPED));
    }
  }

  lemma OthersAreIndexed(db: Db, c: Connection, s: Stage, a: Answers)
    requires Indexed(db) && Remembers(db, s) && !Overwrites(s)
    ensures var (s', db') := Await(db, c, s, a); Indexed(db') && Grows(db, db') && Remembers(db', s')
  {
    hide FindImport, Linked, Known, Lower, HasCv, CvEmail, Eligible, Indexed, MayLink, NoRowFor;
    SameIsIndexed(db);
    match s
    case Finding(e) => LookupIsRight(db, e.messageId);
    case Filtering(e, found) => Writes(db, found, SkipRow(if found.Some? && found.value in db.rows then Some(db.rows[found.value]) else None, e, c));
    case Recording(e, found, cls) => Writes(db, found, PendingRow(e, c, cls));
    case Creating(e, row, cls, email, _) =>
      if MayLink(db, row) { AddCandidateIsIndexed(db, Candidate(c.company, email, Some(row))); }
    case _ =>
  }

  /** One awaited call, whatever other polls have done since the last. */
  lemma AwaitIsIndexed(db: Db, c: Connection, s: Stage, a: Answers)
    requires Indexed(db) && Remembers(db, s)
    ensures var (s', db') := Await(db, c, s, a); Indexed(db') && Grows(db, db') && Remembers(db', s')
  {
    hide Await, Indexed, Grows, Remembers;
    if Overwrites(s) { OverwritingIsIndexed(db, c, s, a); } else { OthersAreIndexed(db, c, s, a); }
  }

  lemma ClosedKeepsMessage()
    ensures forall row, status :: Closed(row, status).messageId == row.messageId
  {
  }

  /** Adding or overwriting the row of a message. */
  lemma Writes(db: Db, found: Option<nat>, value: Row)
    requires Indexed(db) && (found.Some? ==> RowIs(db, found.value, value.messageId))
    ensures found.None? && FindImport(db, value.messageId).None? ==>
      Indexed(AddRow(db, value)) && Grows(db, AddRow(db, value)) && RowIs(AddRow(db, value), db.next, value.messageId)
    ensures found.Some? && found.value in db.rows ==>
      Indexed(PutRow(db, found.value, value)) && Grows(db, PutRow(db, found.value, value)) && RowIs(PutRow(db, found.value, value), found.value, value.messageId)
  {
    LookupIsRight(db, value.messageId);
    if found.None? && FindImport(db, value.messageId).None? { AddRowIsIndexed(db, value); }
    if found.Some? && found.value in db.rows { PutIsIndexed(db, found.value, value); }
  }

  lemma GrowingRemembers(db: Db, db': Db, s: Stage)
    requires Grows(db, db') && Remembers(db, s)
    ensures Remembers(db', s)
  {
  }

  // ---------------------------------------------------------------------------
  // Every run
  // ---------------------------------------------------------------------------

  ghost predicate Kept(s: Sys) {
    Indexed(s.db) && forall p :: p in s.polls ==> Remembers(s.db, s.polls[p].stage)
  }

  lemma CleaningStaysIndexed(db: Db, chosen: set<nat>)
    requires Indexed(db)
    ensures Indexed(CleanedUp(db, chosen)) && Grows(db, CleanedUp(db, chosen))
  {
  }

  lemma PurgingStaysIndexed(db: Db, chosen: set<nat>)
    requires Indexed(db)
    ensures Indexed(Purged(db, chosen)) && Grows(db, Purged(db, chosen))
  {
  }

  lemma TablesStayIndexed(db: Db, chosen: set<nat>, candidate: nat, company: nat, email: string)
    requires Indexed(db)
    ensures Indexed(CleanedUp(db, chosen)) && Grows(db, CleanedUp(db, chosen))
    ensures Indexed(Purged(db, chosen)) && Grows(db, Purged(db, chosen))
    ensures Indexed(db.(candidates := db.candidates - {candidate})) && Grows(db, db.(candidates := db.candidates - {candidate}))
    ensures Indexed(AddCandidate(db, Candidate(company, email, None))) && Grows(db, AddCandidate(db, Candidate(company, email, None)))
  {
    hide CleanedUp, Purged;
    CleaningStaysIndexed(db, chosen);
    PurgingStaysIndexed(db, chosen);
  }

  lemma StepIsKept(w: World, s: Sys, a: Action, s': Sys)
    requires Kept(s) && Step(w, s, a, s')
    ensures Kept(s')
  {
    hide Await, Indexed, Grows, CleanedUp, Purged, RowIs, AddCandidate;
    SameIsIndexed(s.db);
    match a {
      case Wait(p, answers) => AwaitIsIndexed(s.db, w.connections[s.polls[p].connection], s.polls[p].stage, answers);
      case CleanUp(chosen) => TablesStayIndexed(s.db, chosen, 0, 0, "");
      case PurgeBodies(chosen) => TablesStayIndexed(s.db, chosen, 0, 0, "");
      case DeleteCandidate(k) => TablesStayIndexed(s.db, {}, k, 0, "");
      case CreateCandidate(company, email) => TablesStayIndexed(s.db, {}, 0, company, email);
      case _ =>
    }
    forall p | p in s.polls && s'.polls == s.polls ensures Remembers(s'.db, s.polls[p].stage) {
      GrowingRemembers(s.db, s'.db, s.polls[p].stage);
    }
    forall p | p in s.polls && a.Wait? && p != a.poll ensures Remembers(s'.db, s.polls[p].stage) {
      GrowingRemembers(s.db, s'.db, s.polls[p].stage);
    }
  }

  lemma {:induction false} RunIsKept(w: World, restarts: bool, run: seq<Sys>)
    requires IsRun(w, restarts, run) && Indexed(run[0].db)
    ensures Kept(run[|run| - 1])
    decreases |run|
  {
    hide Step, Kept, Indexed;
    if |run| == 1 {
      assert Kept(run[0]) by { IdleIsKept(run[0]); }
    } else {
      RunIsKept(w, restarts, run[..|run| - 1]);
      var a :| Step(w, run[|run| - 2], a, run[|run| - 1]);
      StepIsKept(w, run[|run| - 2], a, run[|run| - 1]);
    }
  }

  lemma IdleIsKept(s: Sys)
    requires Idle(s) && Indexed(s.db)
    ensures Kept(s)
  {
  }

  /**
   * In every interleaving, whichever connections deliver a message: a message has
   * at most one row, and at most one candidate is linked to the rows of a message.
   */
  lemma OneRowOneLink(w: World, restarts: bool, run: seq<Sys>)
    requires IsRun(w, restarts, run) && Indexed(run[0].db)
    ensures OneRowPerMessage(run[|run| - 1].db) && OneLinkPerRow(run[|run| - 1].db)
  {
    hide IsRun, OneRowPerMessage, OneLinkPerRow;
    RunIsKept(w, restarts, run);
  }

  /** The effect of one email processed alone keeps the indexes, so that in the service no write is ever refused. */
  lemma EffectIsIndexed(db: Db, c: Connection, e: Email, a: Answers)
    requires Indexed(db)
    ensures Indexed(EffectOf(db, c, e, FateOf(db, c, e, a)))
  {
    hide FateOf, FindImport, NoRowFor, Known, Indexed, Linked, Closed;
    var f := FateOf(db, c, e, a);
    SameIsIndexed(db);
    OnlyFreshCandidates(db, c, e, a);
    LookupIsRight(db, e.messageId);
    ClosedKeepsMessage();
    if !f.Ignored? && !f.Aborted? {
      var found := FindImport(db, e.messageId);
      var value :=
        if f.Filtered? then SkipRow(if found.Some? then Some(db.rows[found.value]) else None, e, c)
        else Closed(PendingRow(e, c, f.cls), FinalStatus(f));
      Writes(db, found, value);
      var recorded := if found.Some? then PutRow(db, RowOf(db, e), value) else AddRow(db, value);
      if Creates(f) { AddCandidateIsIndexed(recorded, Candidate(c.company, f.email, Some(RowOf(db, e)))); }
    }
  }
}
