// At most one surviving candidate for each message, over every interleaving of polls.
module ImportOnce {
  import opened Wrappers
  import opened EmailImport
  import opened ImportRuns
  import opened ImportIndexes

  // ---------------------------------------------------------------------------
  // The invariant
  // ---------------------------------------------------------------------------

  /** A row that can have a candidate: an application with enough confidence that was not skipped. */
  predicate Earned(row: Row) {
    row.isJobApplication && row.confidence >= THRESHOLD && (row.status == PROCESSING || row.status == IMPORTED || row.status == FAILED)
  }

  ghost predicate LinksAreEarned(db: Db) {
    forall k :: k in db.candidates && db.candidates[k].importRow.Some? ==>
      db.candidates[k].importRow.value in db.rows && Earned(db.rows[db.candidates[k].importRow.value])
  }

  ghost predicate Base(db: Db) {
    Indexed(db) && LinksAreEarned(db)
  }

  /** The stages between marking an eligible row and its final status. */
  predicate Imports(s: Stage) {
    !(s.Resting? || s.Finding? || s.Linking? || s.Filtering? || s.Classifying? || s.Tracking? || s.Recording? || s.Declining?)
  }

  /** The poll's row is there with the given status, and records an application of enough confidence. */
  ghost predicate Own(db: Db, s: Stage, status: Status)
    requires Imports(s)
  {
    && s.row in db.rows && RowIs(db, s.row, s.e.messageId) && db.rows[s.row].status == status
    && db.rows[s.row].isJobApplication && db.rows[s.row].confidence >= THRESHOLD
  }

  /** What a poll relies on: its row, and until it creates a candidate that the row has none. */
  ghost predicate StageSound(db: Db, s: Stage) {
    && Remembers(db, s)
    && if !Imports(s) then RowOfStage(s).Some? && !s.Linking? ==> !Linked(db.candidates, RowOfStage(s).value)
       else if s.Scoring? || s.Importing? then Own(db, s, PROCESSING)
       else if s.Counting? then Own(db, s, IMPORTED)
       else if s.Failing? then Own(db, s, PROCESSING) || Own(db, s, IMPORTED)
       else Own(db, s, if s.Marking? then PENDING else PROCESSING) && !Linked(db.candidates, s.row)
  }

  ghost predicate Routed(w: World, p: Poll) {
    p.stage.Resting? || (Delivers(w, p.connection, p.stage.e.messageId) && (Imports(p.stage) ==> w.connections[p.connection].autoImport))
  }

  ghost predicate Sound(w: World, s: Sys) {
    && Locked(w, s) && Base(s.db)
    && (forall p :: p in s.polls ==> StageSound(s.db, s.polls[p].stage) && Routed(w, s.polls[p]))
  }

  // ---------------------------------------------------------------------------
  // A poll's own calls
  // ---------------------------------------------------------------------------

  lemma PutKeepsBase(db: Db, row: nat, value: Row)
    requires Base(db) && row in db.rows && value.messageId == db.rows[row].messageId
    requires Linked(db.candidates, row) ==> Earned(value)
    ensures Base(PutRow(db, row, value))
  {
    hide Earned, Indexed;
    PutIsIndexed(db, row, value);
  }

  lemma AddRowKeepsBase(db: Db, value: Row)
    requires Base(db) && NoRowFor(db, value.messageId)
    ensures Base(AddRow(db, value)) && !Linked(db.candidates, db.next) && RowIs(AddRow(db, value), db.next, value.messageId)
  {
    hide Earned, OneLinkPerRow;
    AddRowIsIndexed(db, value);
  }

  lemma AddCandidateKeepsBase(db: Db, value: Candidate)
    requires Base(db)
    requires value.importRow.Some? ==> MayLink(db, value.importRow.value) && Earned(db.rows[value.importRow.value])
    ensures Base(AddCandidate(db, value))
  {
    hide Earned, Indexed;
    AddCandidateIsIndexed(db, value);
  }

  /** Adding the row of a message, or overwriting the one that was looked up and has no candidate. */
  lemma RecordingKeepsBase(db: Db, found: Option<nat>, value: Row)
    requires Base(db) && (found.Some? ==> RowIs(db, found.value, value.messageId) && !Linked(db.candidates, found.value))
    ensures found.None? && FindImport(db, value.messageId).None? ==>
      Base(AddRow(db, value)) && !Linked(db.candidates, db.next) && RowIs(AddRow(db, value), db.next, value.messageId)
    ensures found.Some? && found.value in db.rows ==> Base(PutRow(db, found.value, value)) && RowIs(PutRow(db, found.value, value), found.value, value.messageId)
  {
    hide FindImport, Base, NoRowFor, Linked;
    BaseIsIndexed(db);
    LookupIsRight(db, value.messageId);
    if found.None? && FindImport(db, value.messageId).None? { AddRowKeepsBase(db, value); }
    if found.Some? && found.value in db.rows { PutKeepsBase(db, found.value, value); }
  }

  lemma FilteringStaysSound(db: Db, c: Connection, s: Stage, a: Answers)
    requires Base(db) && StageSound(db, s) && s.Filtering?
    ensures var (s', db') := Await(db, c, s, a);
      Base(db') && StageSound(db', s') && !Imports(s') && db'.candidates == db.candidates
  {
    hide FindImport, Linked, Lower, Base;
    RecordingKeepsBase(db, s.found, SkipRow(if s.found.Some? && s.found.value in db.rows then Some(db.rows[s.found.value]) else None, s.e, c));
  }

  lemma RecordingStaysSound(db: Db, c: Connection, s: Stage, a: Answers)
    requires Base(db) && StageSound(db, s) && s.Recording?
    ensures var (s', db') := Await(db, c, s, a);
      Base(db') && StageSound(db', s') && (Imports(s') ==> c.autoImport) && db'.candidates == db.candidates
  {
    hide FindImport, Linked, Lower, Base;
    RecordingKeepsBase(db, s.found, PendingRow(s.e, c, s.cls));
  }

  /** The calls up to the one that records a row, and the one that declines it. */
  lemma EarlyStaysSound(db: Db, c: Connection, s: Stage, a: Answers)
    requires Base(db) && StageSound(db, s) && !Imports(s)
    ensures var (s', db') := Await(db, c, s, a);
      Base(db') && StageSound(db', s') && (Imports(s') ==> c.autoImport) && db'.candidates == db.candidates
  {
    hide FindImport, Linked, Known, Lower, HasCv, CvEmail, Base, NoRowFor;
    BaseIsIndexed(db);
    if s.Filtering? {
      FilteringStaysSound(db, c, s, a);
    } else if s.Recording? {
      RecordingStaysSound(db, c, s, a);
    } else if s.Finding? {
      LookupIsRight(db, s.e.messageId);
    } else if s.Declining? && s.row in db.rows {
      PutKeepsBase(db, s.row, Closed(db.rows[s.row], SKIPPED));
    }
  }

  lemma BaseIsIndexed(db: Db)
    requires Base(db)
    ensures Indexed(db) && Numbered(db)
  {
  }

  predicate Writes(s: Stage) {
    s.Marking? || s.Importing? || s.Refusing? || s.Failing?
  }

  /** The later calls that write the row. */
  lemma WritesStaySound(db: Db, c: Connection, s: Stage, a: Answers)
    requires Base(db) && StageSound(db, s) && Writes(s)
    ensures var (s', db') := Await(db, c, s, a); Base(db') && StageSound(db', s')
  {
    hide FindImport, Linked, Known, Lower, HasCv, CvEmail, Base;
    var row := s.row;
    match s
    case Marking(e, _, cls) => PutKeepsBase(db, row, db.rows[row].(status := PROCESSING));
    case Importing(e, _) => PutKeepsBase(db, row, Closed(db.rows[row], IMPORTED));
    case Refusing(e, _) => PutKeepsBase(db, row, Closed(db.rows[row], SKIPPED));
    case Failing(e, _) => PutKeepsBase(db, row, Closed(db.rows[row], FAILED));
  }

  /** The other later calls; the indexes never refuse the candidate. */
  lemma LateStaysSound(db: Db, c: Connection, s: Stage, a: Answers)
    requires Base(db) && StageSound(db, s) && Imports(s) && !Writes(s)
    ensures var (s', db') := Await(db, c, s, a); Base(db') && StageSound(db', s')
  {
    hide FindImport, Linked, Known, Lower, HasCv, CvEmail, Base;
    if s.Creating? {
      AddCandidateKeepsBase(db, Candidate(c.company, s.email, Some(s.row)));
    }
  }

  lemma AwaitStaysSound(db: Db, c: Connection, s: Stage, a: Answers)
    requires Base(db) && StageSound(db, s) && (Imports(s) ==> c.autoImport)
    ensures var (s', db') := Await(db, c, s, a); Base(db') && StageSound(db', s') && (Imports(s') ==> c.autoImport)
  {
    hide Await, Base, StageSound;
    if !Imports(s) {
      EarlyStaysSound(db, c, s, a);
    } else if Writes(s) {
      WritesStaySound(db, c, s, a);
    } else {
      LateStaysSound(db, c, s, a);
    }
  }

  // ---------------------------------------------------------------------------
  // The other polls' calls
  // ---------------------------------------------------------------------------

  /** The tables change for message `m` only: at most its row, and a candidate linked to that. */
  ghost predicate ChangesOnly(db: Db, m: string, db': Db) {
    && db.next <= db'.next
    && (forall r :: r in db.rows && db.rows[r].messageId != m ==> r in db'.rows && db'.rows[r] == db.rows[r])
    && (forall r :: r in db'.rows && db'.rows[r].messageId != m ==> r in db.rows && db'.rows[r] == db.rows[r])
    && (forall r :: r in db'.rows && r !in db.rows ==> r == db.next)
    && (forall k :: k in db'.candidates ==>
        (k in db.candidates && db'.candidates[k] == db.candidates[k])
        || (k == db.next && db'.candidates[k].importRow.Some? && db'.candidates[k].importRow.value in db.rows
            && db.rows[db'.candidates[k].importRow.value].messageId == m))
  }

  lemma AwaitChangesOnly(db: Db, c: Connection, s: Stage, a: Answers)
    requires Numbered(db) && Remembers(db, s) && !s.Resting?
    ensures ChangesOnly(db, s.e.messageId, Await(db, c, s, a).1)
  {
    hide FindImport, Linked, Known, Lower, HasCv, CvEmail, Eligible;
  }

  /** A poll's facts survive what is done for another message. */
  lemma OthersStaySound(db: Db, m: string, db': Db, s: Stage)
    requires ChangesOnly(db, m, db') && StageSound(db, s) && !s.Resting? && s.e.messageId != m
    ensures StageSound(db', s)
  {
  }

  /** And those of a poll that does not import survive what other such polls do for the same message. */
  lemma QuietStaysSound(db: Db, db': Db, s: Stage)
    requires Grows(db, db') && db'.candidates == db.candidates && StageSound(db, s) && !Imports(s)
    ensures StageSound(db', s)
  {
    hide Linked;
  }

  lemma OtherPollStaysSound(w: World, s: Sys, p: nat, a: Answers, q: nat)
    requires SafeRoutes(w) && Sound(w, s) && p in s.polls && q in s.polls && p != q && !s.polls[p].stage.Resting?
    ensures s.polls[p].connection in w.connections
    ensures StageSound(Await(s.db, w.connections[s.polls[p].connection], s.polls[p].stage, a).1, s.polls[q].stage)
  {
    hide Await, Base, StageSound, Grows, ChangesOnly, Remembers;
    var c, stage, other := w.connections[s.polls[p].connection], s.polls[p].stage, s.polls[q].stage;
    var db' := Await(s.db, c, stage, a).1;
    BaseIsIndexed(s.db);
    SoundRemembers(s.db, stage);
    AwaitIsIndexed(s.db, c, stage, a);
    AwaitChangesOnly(s.db, c, stage, a);
    if other.Resting? {
      RestIsSound(db', other);
    } else if other.e.messageId != stage.e.messageId {
      OthersStaySound(s.db, stage.e.messageId, db', other);
    } else {
      assert s.polls[p].connection != s.polls[q].connection;
      assert Routed(w, s.polls[p]) && Routed(w, s.polls[q]);
      EarlyStaysSound(s.db, c, stage, a);
      QuietStaysSound(s.db, db', other);
    }
  }

  lemma SoundRemembers(db: Db, s: Stage)
    requires StageSound(db, s)
    ensures Remembers(db, s)
  {
  }

  lemma RestIsSound(db: Db, s: Stage)
    requires s.Resting?
    ensures StageSound(db, s)
  {
  }

  // ---------------------------------------------------------------------------
  // All steps
  // ---------------------------------------------------------------------------

  lemma WaitKeepsSound(w: World, s: Sys, p: nat, a: Answers, s': Sys)
    requires SafeRoutes(w) && Sound(w, s) && Step(w, s, Wait(p, a), s') && !s.polls[p].stage.Resting?
    ensures Sound(w, s')
  {
    hide Await, StageSound, Base, Locked, SafeRoutes;
    var c, stage := w.connections[s.polls[p].connection], s.polls[p].stage;
    AwaitStaysSound(s.db, c, stage, a);
    forall q | q in s.polls && q != p ensures StageSound(s'.db, s.polls[q].stage) {
      OtherPollStaysSound(w, s, p, a, q);
    }
    AwaitKeepsEmail(s.db, c, stage, a);
    StepKeepsLocked(w, s, Wait(p, a), s');
  }

  lemma AwaitKeepsEmail(db: Db, c: Connection, s: Stage, a: Answers)
    requires !s.Resting?
    ensures var s' := Await(db, c, s, a).0; s'.Resting? || s'.e == s.e
  {
    hide FindImport, Linked, Known, Lower, HasCv, CvEmail, Eligible;
  }

  /** Deleting skipped rows takes no candidate's row and no row that a poll is importing. */
  lemma CleanUpKeepsStage(db: Db, chosen: set<nat>, s: Stage)
    requires Base(db) && StageSound(db, s)
    ensures StageSound(CleanedUp(db, chosen), s)
  {
    CleanUpDetachesNone(db, chosen);
  }

  /** The nightly clean-up never takes the link of a candidate. */
  lemma CleanUpDetachesNone(db: Db, chosen: set<nat>)
    requires Base(db)
    ensures CleanedUp(db, chosen).candidates == db.candidates && Base(CleanedUp(db, chosen))
  {
    hide Indexed;
    TablesStayIndexed(db, chosen, 0, 0, "");
    assert CleanedUp(db, chosen).candidates.Keys == db.candidates.Keys;
    assert forall k :: k in db.candidates ==> CleanedUp(db, chosen).candidates[k] == db.candidates[k];
  }

  /** The purge drops both texts of the chosen rows, and changes nothing else. */
  lemma PurgedRows(db: Db, chosen: set<nat>)
    ensures var db' := Purged(db, chosen);
      && db'.rows.Keys == db.rows.Keys && db'.candidates == db.candidates && db'.next == db.next
      && forall r :: r in db.rows ==> db'.rows[r] == if r in chosen then db.rows[r].(bodyText := None, bodyHtml := None) else db.rows[r]
  {
  }

  predicate SameButText(a: Row, b: Row) {
    a.messageId == b.messageId && a.status == b.status && a.isJobApplication == b.isJobApplication && a.confidence == b.confidence
  }

  lemma PurgedAlike(db: Db, chosen: set<nat>)
    ensures var db' := Purged(db, chosen);
      && db'.rows.Keys == db.rows.Keys && db'.candidates == db.candidates && db'.next == db.next
      && forall r :: r in db.rows ==> SameButText(db'.rows[r], db.rows[r])
  {
    hide Purged;
    PurgedRows(db, chosen);
  }

  lemma PurgeKeepsSound(db: Db, chosen: set<nat>, s: Stage)
    requires Base(db) && StageSound(db, s)
    ensures Base(Purged(db, chosen)) && StageSound(Purged(db, chosen), s)
  {
    hide Indexed, Purged, Linked;
    PurgedAlike(db, chosen);
    TablesStayIndexed(db, chosen, 0, 0, "");
  }

  lemma DeletingKeepsSound(db: Db, k: nat, s: Stage)
    requires Base(db) && StageSound(db, s)
    ensures var db' := db.(candidates := db.candidates - {k}); Base(db') && StageSound(db', s)
  {
    hide Indexed;
    TablesStayIndexed(db, {}, k, 0, "");
  }

  lemma CreatingKeepsSound(db: Db, company: nat, email: string, s: Stage)
    requires Base(db) && StageSound(db, s)
    ensures var db' := AddCandidate(db, Candidate(company, email, None)); Base(db') && StageSound(db', s)
  {
    hide Indexed;
    TablesStayIndexed(db, {}, 0, company, email);
  }

  lemma TablesKeepSound(w: World, s: Sys, a: Action, s': Sys)
    requires Sound(w, s) && Step(w, s, a, s') && (a.DeleteCandidate? || a.CreateCandidate? || a.CleanUp? || a.PurgeBodies?)
    ensures Sound(w, s')
  {
    hide Await, StageSound, Base, Locked, CleanedUp, Purged, AddCandidate;
    StepKeepsLocked(w, s, a, s');
    RestIsSound(s.db, Resting(None));
    forall t | StageSound(s.db, t) ensures Base(s'.db) && StageSound(s'.db, t) {
      match a {
        case CleanUp(chosen) => CleanUpKeepsStage(s.db, chosen, t); CleanUpDetachesNone(s.db, chosen);
        case PurgeBodies(chosen) => PurgeKeepsSound(s.db, chosen, t);
        case DeleteCandidate(k) => DeletingKeepsSound(s.db, k, t);
        case CreateCandidate(company, email) => CreatingKeepsSound(s.db, company, email, t);
      }
    }
  }

  lemma PollsKeepSound(w: World, s: Sys, a: Action, s': Sys)
    requires Sound(w, s) && Step(w, s, a, s') && (a.Start? || a.Deliver? || a.End? || a.Restart? || (a.Wait? && s.polls[a.poll].stage.Resting?))
    ensures Sound(w, s')
  {
    hide Base, Locked, Lock;
    StepKeepsLocked(w, s, a, s');
  }

  lemma StepKeepsSound(w: World, s: Sys, a: Action, s': Sys)
    requires SafeRoutes(w) && Sound(w, s) && Step(w, s, a, s')
    ensures Sound(w, s')
  {
    hide Sound, SafeRoutes, Step;
    if a.Wait? && WaitsInside(w, s, a, s') {
      WaitKeepsSound(w, s, a.poll, a.a, s');
    } else if a.DeleteCandidate? || a.CreateCandidate? || a.CleanUp? || a.PurgeBodies? {
      TablesKeepSound(w, s, a, s');
    } else {
      PollsKeepSound(w, s, a, s');
    }
  }

  ghost predicate WaitsInside(w: World, s: Sys, a: Action, s': Sys)
    requires a.Wait? && Step(w, s, a, s')
  {
    !s.polls[a.poll].stage.Resting?
  }

  lemma {:induction false} RunIsSound(w: World, restarts: bool, run: seq<Sys>)
    requires SafeRoutes(w) && IsRun(w, restarts, run) && Base(run[0].db)
    ensures Sound(w, run[|run| - 1])
    decreases |run|
  {
    hide Step, Sound, Base, SafeRoutes;
    if |run| == 1 {
      assert Sound(w, run[0]) by { StartIsSound(w, run[0]); }
    } else {
      RunIsSound(w, restarts, run[..|run| - 1]);
      var a :| Step(w, run[|run| - 2], a, run[|run| - 1]);
      StepKeepsSound(w, run[|run| - 2], a, run[|run| - 1]);
    }
  }

  lemma StartIsSound(w: World, s: Sys)
    requires Idle(s) && Base(s.db)
    ensures Sound(w, s)
  {
    hide Base;
    IdleIsLocked(w, s);
  }

  // ---------------------------------------------------------------------------
  // Where a candidate comes from
  // ---------------------------------------------------------------------------

  /** The message of the row that candidate `k` was linked to when it first appeared. */
  ghost function Origin(run: seq<Sys>, k: nat): Option<string>
    decreases |run|
  {
    if run == [] then None
    else if |run| > 1 && k in run[|run| - 2].db.candidates then Origin(run[..|run| - 1], k)
    else MessageOf(run[|run| - 1].db, k)
  }

  function MessageOf(db: Db, k: nat): Option<string> {
    if k in db.candidates && db.candidates[k].importRow.Some? && db.candidates[k].importRow.value in db.rows
    then Some(db.rows[db.candidates[k].importRow.value].messageId) else None
  }

  /** The link of a surviving candidate is not lost. */
  lemma AwaitKeepsLinks(db: Db, c: Connection, s: Stage, a: Answers, k: nat)
    requires Base(db) && StageSound(db, s) && k in db.candidates
    ensures MessageOf(Await(db, c, s, a).1, k) == MessageOf(db, k)
  {
    hide FindImport, Linked, Known, Lower, HasCv, CvEmail, Eligible;
  }

  lemma StepKeepsLinks(w: World, s: Sys, a: Action, s': Sys, k: nat)
    requires Sound(w, s) && Step(w, s, a, s') && k in s.db.candidates && k in s'.db.candidates
    ensures MessageOf(s'.db, k) == MessageOf(s.db, k)
  {
    hide Await, StageSound, Locked, CleanedUp;
    match a
    case Wait(p, answers) => AwaitKeepsLinks(s.db, w.connections[s.polls[p].connection], s.polls[p].stage, answers, k);
    case CleanUp(chosen) => CleanUpKeepsLinks(s.db, chosen, k);
    case _ =>
  }

  lemma CleanUpKeepsLinks(db: Db, chosen: set<nat>, k: nat)
    requires Base(db)
    ensures MessageOf(CleanedUp(db, chosen), k) == MessageOf(db, k)
  {
    CleanUpDetachesNone(db, chosen);
  }

  lemma {:induction false} OriginIsLinked(w: World, restarts: bool, run: seq<Sys>, k: nat)
    requires SafeRoutes(w) && IsRun(w, restarts, run) && Base(run[0].db) && k in run[|run| - 1].db.candidates
    ensures Origin(run, k) == MessageOf(run[|run| - 1].db, k)
    decreases |run|
  {
    hide Step, Sound, Base, SafeRoutes, MessageOf;
    if |run| > 1 && k in run[|run| - 2].db.candidates {
      var init := run[..|run| - 1];
      OriginIsLinked(w, restarts, init, k);
      RunIsSound(w, restarts, init);
      var a :| Step(w, run[|run| - 2], a, run[|run| - 1]);
      StepKeepsLinks(w, run[|run| - 2], a, run[|run| - 1], k);
    }
  }

  /** Two surviving candidates of one run never come from the same message. */
  ghost predicate OneEach(run: seq<Sys>)
    requires run != []
  {
    var db := run[|run| - 1].db;
    forall k, l :: k in db.candidates && l in db.candidates && Origin(run, k).Some? && Origin(run, k) == Origin(run, l) ==> k == l
  }

  /**
   * If no message that is delivered on two connections is delivered on one that
   * imports automatically: over every interleaving of polls, with failures,
   * retries, deletions, clean-ups and restarts, at most one surviving candidate
   * comes from any message, and it stays linked to a row that records an
   * application of enough confidence.
   */
  lemma AtMostOnce(w: World, restarts: bool, run: seq<Sys>)
    requires SafeRoutes(w) && IsRun(w, restarts, run) && Base(run[0].db)
    ensures OneEach(run) && LinksAreEarned(run[|run| - 1].db)
    ensures forall k :: k in run[|run| - 1].db.candidates ==> Origin(run, k) == MessageOf(run[|run| - 1].db, k)
  {
    hide Next, SafeRoutes, StageSound, Locked, Origin, Earned;
    var db := run[|run| - 1].db;
    RunIsSound(w, restarts, run);
    forall k | k in db.candidates ensures Origin(run, k) == MessageOf(db, k) {
      OriginIsLinked(w, restarts, run, k);
    }
  }

  // ---------------------------------------------------------------------------
  // The indexes at rest
  // ---------------------------------------------------------------------------

  /** What a poll is about to write is not refused by an index. */
  ghost predicate Unrefused(db: Db, s: Stage) {
    && (s.Filtering? || s.Classifying? || s.Tracking? || s.Recording? ==> s.found.None? ==> NoRowFor(db, s.e.messageId))
    && (s.Creating? ==> MayLink(db, s.row))
  }

  ghost predicate AllUnrefused(s: Sys) {
    forall p :: p in s.polls ==> Unrefused(s.db, s.polls[p].stage)
  }

  lemma OneRouteIsSafe(w: World)
    requires OneRoute(w)
    ensures SafeRoutes(w)
  {
  }

  lemma SoundMayLink(db: Db, s: Stage)
    requires StageSound(db, s)
    ensures s.Creating? ==> MayLink(db, s.row)
  {
  }

  lemma AwaitIsUnrefused(db: Db, c: Connection, s: Stage, a: Answers)
    requires Numbered(db) && Unrefused(db, s) && StageSound(Await(db, c, s, a).1, Await(db, c, s, a).0)
    ensures Unrefused(Await(db, c, s, a).1, Await(db, c, s, a).0)
  {
    hide FindImport, Linked, Known, Lower, HasCv, CvEmail, Eligible, StageSound, NoRowFor;
    var (s', db') := Await(db, c, s, a);
    SoundMayLink(db', s');
    if s.Finding? { LookupIsRight(db, s.e.messageId); }
  }

  lemma OthersStayUnrefused(db: Db, m: string, db': Db, s: Stage)
    requires ChangesOnly(db, m, db') && Unrefused(db, s) && StageSound(db', s) && !s.Resting? && s.e.messageId != m
    ensures Unrefused(db', s)
  {
    hide StageSound;
    SoundMayLink(db', s);
  }

  lemma WaitIsUnrefused(w: World, s: Sys, p: nat, a: Answers, s': Sys)
    requires OneRoute(w) && Sound(w, s) && Sound(w, s') && AllUnrefused(s) && Step(w, s, Wait(p, a), s') && !s.polls[p].stage.Resting?
    ensures AllUnrefused(s')
  {
    hide Await, StageSound, Base, Unrefused, ChangesOnly, Remembers;
    var c, stage := w.connections[s.polls[p].connection], s.polls[p].stage;
    BaseIsIndexed(s.db);
    SoundRemembers(s.db, stage);
    assert StageSound(s'.db, s'.polls[p].stage);
    AwaitIsUnrefused(s.db, c, stage, a);
    AwaitChangesOnly(s.db, c, stage, a);
    forall q | q in s.polls && q != p ensures Unrefused(s'.db, s.polls[q].stage) {
      assert Routed(w, s.polls[p]) && Routed(w, s.polls[q]);
      assert s'.polls[q] == s.polls[q];
      if s.polls[q].stage.Resting? {
        RestIsUnrefused(s'.db, s.polls[q].stage);
      } else {
        OthersStayUnrefused(s.db, stage.e.messageId, s'.db, s.polls[q].stage);
      }
    }
  }

  lemma RestIsUnrefused(db: Db, s: Stage)
    requires s.Resting? || s.Finding?
    ensures Unrefused(db, s)
  {
  }

  /** Deleting rows or candidates makes no write refused. */
  lemma FewerRowsStayUnrefused(db: Db, db': Db, s: Stage)
    requires Unrefused(db, s) && StageSound(db', s)
    requires forall r :: r in db'.rows ==> r in db.rows && db'.rows[r].messageId == db.rows[r].messageId
    ensures Unrefused(db', s)
  {
    hide StageSound;
    SoundMayLink(db', s);
  }

  lemma FewerRows(db: Db, chosen: set<nat>, db': Db)
    requires db' == CleanedUp(db, chosen) || db' == Purged(db, chosen) || db'.rows == db.rows
    ensures forall r :: r in db'.rows ==> r in db.rows && db'.rows[r].messageId == db.rows[r].messageId
  {
  }

  lemma RestingWaits(w: World, s: Sys, a: Action, s': Sys)
    requires Step(w, s, a, s') && a.Wait? && s.polls[a.poll].stage.Resting?
    ensures s' == s
  {
  }

  lemma StepIsUnrefused(w: World, s: Sys, a: Action, s': Sys)
    requires OneRoute(w) && Sound(w, s) && Sound(w, s') && AllUnrefused(s) && Step(w, s, a, s')
    ensures AllUnrefused(s')
  {
    hide Await, StageSound, Base, Unrefused, Locked, OneRoute, Routed, CleanedUp, Purged;
    if a.Wait? {
      if s.polls[a.poll].stage.Resting? { RestingWaits(w, s, a, s'); } else { WaitIsUnrefused(w, s, a.poll, a.a, s'); }
    } else {
      FewerRows(s.db, if a.CleanUp? || a.PurgeBodies? then a.chosen else {}, s'.db);
      forall p | p in s'.polls ensures Unrefused(s'.db, s'.polls[p].stage) {
        if s'.polls[p].stage.Resting? || s'.polls[p].stage.Finding? {
          RestIsUnrefused(s'.db, s'.polls[p].stage);
        } else {
          FewerRowsStayUnrefused(s.db, s'.db, s'.polls[p].stage);
        }
      }
    }
  }

  /** With one route for every message, no index ever refuses what a poll is about to write. */
  lemma {:induction false} IndexesNeverFire(w: World, restarts: bool, run: seq<Sys>)
    requires OneRoute(w) && IsRun(w, restarts, run) && Base(run[0].db)
    ensures AllUnrefused(run[|run| - 1])
    decreases |run|
  {
    hide Step, Sound, Base, OneRoute, SafeRoutes, Unrefused;
    OneRouteIsSafe(w);
    if |run| > 1 {
      IndexesNeverFire(w, restarts, run[..|run| - 1]);
      RunIsSound(w, restarts, run[..|run| - 1]);
      RunIsSound(w, restarts, run);
      var a :| Step(w, run[|run| - 2], a, run[|run| - 1]);
      StepIsUnrefused(w, run[|run| - 2], a, run[|run| - 1]);
    }
  }
}
