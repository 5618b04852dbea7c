// Polls of many mailboxes interleaved call by call.
module ImportRuns {
  import opened Wrappers
  import opened EmailImport

  // ---------------------------------------------------------------------------
  // One poll, one awaited call at a time
  // ---------------------------------------------------------------------------

  /** The call a poll waits for. */
  datatype Stage =
    | Resting(last: Option<Outcome>)
    | Finding(e: Email)
    | Linking(e: Email, row: nat)
    | Filtering(e: Email, found: Option<nat>)                              // writes a SKIPPED row
    | Classifying(e: Email, found: Option<nat>)
    | Tracking(e: Email, found: Option<nat>, cls: Classification)
    | Recording(e: Email, found: Option<nat>, cls: Classification)         // writes a PENDING row
    | Declining(e: Email, row: nat)
    | Marking(e: Email, row: nat, cls: Classification)                     // writes PROCESSING
    | Uploading(e: Email, row: nat, cls: Classification)
    | Extracting(e: Email, row: nat, cls: Classification)
    | FindingSender(e: Email, row: nat, cls: Classification)
    | Parsing(e: Email, row: nat, cls: Classification)
    | FindingParsed(e: Email, row: nat, cls: Classification, email: string)
    | FindingJob(e: Email, row: nat, cls: Classification, email: string)
    | Creating(e: Email, row: nat, cls: Classification, email: string, job: bool)
    | Scoring(e: Email, row: nat, cls: Classification)
    | Importing(e: Email, row: nat)                                        // writes IMPORTED
    | Counting(e: Email, row: nat)
    | Refusing(e: Email, row: nat)                                         // writes SKIPPED, known candidate
    | Failing(e: Email, row: nat)                                          // writes FAILED

  function Rest(o: Outcome): Stage {
    Resting(Some(o))
  }

  /** Where an email goes once no candidate of an earlier attempt survives. */
  function AfterLookup(c: Connection, e: Email, found: Option<nat>, a: Answers): Stage {
    if Lower(e.senderEmail) == Lower(c.email) then Rest(NotImported)
    else
      match a.prefilter
      case Throws => Rest(Threw)
      case Skip => Filtering(e, found)
      case AutoClassify(confidence, position) => Recording(e, found, AutoClass(confidence, position))
      case NeedsAi => Classifying(e, found)
  }

  function AfterRecording(c: Connection, e: Email, row: nat, cls: Classification): Stage {
    if Eligible(c, cls) then Marking(e, row, cls) else Declining(e, row)
  }

  function ToCreate(e: Email, row: nat, cls: Classification, email: string): Stage {
    if cls.position != "" then FindingJob(e, row, cls, email) else Creating(e, row, cls, email, false)
  }

  /** A write to a row that is gone throws. */
  function Put(db: Db, row: nat, value: Row, ok: Stage, gone: Stage): (Stage, Db) {
    if row in db.rows then (ok, PutRow(db, row, value)) else (gone, db)
  }

  /** The index on the message id refuses a second row for a message. */
  function Insert(db: Db, value: Row, ok: Stage, refused: Stage): (Stage, Db) {
    if FindImport(db, value.messageId).Some? then (refused, db) else (ok, AddRow(db, value))
  }

  /** A link leads to a row that is there, and the index on the link refuses a second candidate for it. */
  predicate MayLink(db: Db, row: nat) {
    row in db.rows && !Linked(db.candidates, row)
  }

  function Close(db: Db, row: nat, status: Status, ok: Stage, gone: Stage): (Stage, Db) {
    if row in db.rows then (ok, PutRow(db, row, Closed(db.rows[row], status))) else (gone, db)
  }

  /** Waits for one call and goes on to the next. */
  function Await(db: Db, c: Connection, s: Stage, a: Answers): (Stage, Db) {
    match s
    case Resting(_) => (s, db)
    case Finding(e) =>
      if a.findFails then (Rest(Threw), db)
      else
        var found := FindImport(db, e.messageId);
        (if found.Some? then Linking(e, found.value) else AfterLookup(c, e, None, a), db)
    case Linking(e, row) =>
      (if a.linkFails then Rest(Threw)
       else if Linked(db.candidates, row) then Rest(NotImported)
       else AfterLookup(c, e, Some(row), a), db)
    case Filtering(e, found) =>
      if found.None? then Insert(db, SkipRow(None, e, c), Rest(NotImported), Rest(Threw))
      else Put(db, found.value, SkipRow(if found.value in db.rows then Some(db.rows[found.value]) else None, e, c), Rest(NotImported), Rest(Threw))
    case Classifying(e, found) => (if a.classified.None? then Rest(Threw) else Tracking(e, found, a.classified.value), db)
    case Tracking(e, found, cls) => (if a.trackFails then Rest(Threw) else Recording(e, found, cls), db)
    case Recording(e, found, cls) =>
      if found.None? then Insert(db, PendingRow(e, c, cls), AfterRecording(c, e, db.next, cls), Rest(Threw))
      else Put(db, found.value, PendingRow(e, c, cls), AfterRecording(c, e, found.value, cls), Rest(Threw))
    case Declining(e, row) => Close(db, row, SKIPPED, Rest(NotImported), Rest(Threw))
    case Marking(e, row, cls) =>
      Put(db, row, if row in db.rows then db.rows[row].(status := PROCESSING) else PendingRow(e, c, cls),
        if HasCv(e) then Uploading(e, row, cls) else FindingSender(e, row, cls), Rest(Threw))
    case Uploading(e, row, cls) => (if a.uploadFails then Failing(e, row) else Extracting(e, row, cls), db)
    case Extracting(e, row, cls) =>
      (if a.extracted.None? || a.extracted.value.text == "" || a.extracted.value.confidence < 30 then Failing(e, row)
       else FindingSender(e, row, cls), db)
    case FindingSender(e, row, cls) =>
      (if a.senderFails then Failing(e, row)
       else if Known(db.candidates, c.company, Lower(e.senderEmail)) then Refusing(e, row)
       else if HasCv(e) then Parsing(e, row, cls)
       else ToCreate(e, row, cls, Lower(e.senderEmail)), db)
    case Parsing(e, row, cls) => (FindingParsed(e, row, cls, CvEmail(e, a)), db)
    case FindingParsed(e, row, cls, email) =>
      (if a.parsedFails then Failing(e, row)
       else if Known(db.candidates, c.company, email) then Refusing(e, row)
       else ToCreate(e, row, cls, email), db)
    case FindingJob(e, row, cls, email) => (if a.job.None? then Failing(e, row) else Creating(e, row, cls, email, a.job.value), db)
    case Creating(e, row, cls, email, job) =>
      if a.createFails || !MayLink(db, row) then (Failing(e, row), db)
      else (if HasCv(e) && job then Scoring(e, row, cls) else Importing(e, row), AddCandidate(db, Candidate(c.company, email, Some(row))))
    case Scoring(e, row, cls) => (Importing(e, row), db)
    case Importing(e, row) => Close(db, row, IMPORTED, Counting(e, row), Failing(e, row))
    case Counting(e, row) => (if a.trackImportFails then Failing(e, row) else Rest(Imported), db)
    case Refusing(e, row) => Close(db, row, SKIPPED, Rest(NotImported), Failing(e, row))
    case Failing(e, row) => Close(db, row, FAILED, Rest(Threw), Rest(Threw))
  }

  // ---------------------------------------------------------------------------
  // All polls
  // ---------------------------------------------------------------------------

  datatype Poll = Poll(connection: nat, stage: Stage)

  /** The tables, each provider's set of connections being polled, and the polls in flight. */
  datatype Sys = Sys(db: Db, locks: map<Provider, set<nat>>, polls: map<nat, Poll>)

  /** The connections, and which of them deliver each message. */
  datatype World = World(connections: map<nat, Connection>, routes: map<string, set<nat>>)

  predicate Delivers(w: World, connection: nat, messageId: string) {
    connection in w.connections && messageId in w.routes && connection in w.routes[messageId]
  }

  /** No message is delivered on two connections. */
  ghost predicate OneRoute(w: World) {
    forall m, c, c' :: Delivers(w, c, m) && Delivers(w, c', m) ==> c == c'
  }

  /** No message that is delivered on two connections is delivered on one that imports automatically. */
  ghost predicate SafeRoutes(w: World) {
    forall m, c, c' :: Delivers(w, c, m) && Delivers(w, c', m) && c != c' ==> !w.connections[c].autoImport
  }

  datatype Action =
    | Start(poll: nat, connection: nat)
    | Deliver(poll: nat, e: Email)
    | Wait(poll: nat, a: Answers)
    | End(poll: nat)
    | DeleteCandidate(candidate: nat)
    | CreateCandidate(company: nat, email: string)
    | CleanUp(chosen: set<nat>)
    | PurgeBodies(chosen: set<nat>)
    | Restart

  /** Deletes the chosen SKIPPED rows; a candidate that is linked to one of them loses its link. */
  function CleanedUp(db: Db, chosen: set<nat>): Db {
    var rows := map r | r in db.rows && !(r in chosen && db.rows[r].status == SKIPPED) :: db.rows[r];
    db.(rows := rows, candidates := map k | k in db.candidates ::
      if db.candidates[k].importRow.Some? && db.candidates[k].importRow.value !in rows then db.candidates[k].(importRow := None) else db.candidates[k])
  }

  function Purged(db: Db, chosen: set<nat>): Db {
    db.(rows := map r | r in db.rows ::
      if r in chosen then db.rows[r].(bodyText := None, bodyHtml := None) else db.rows[r])
  }

  function Lock(s: Sys, p: Provider): set<nat> {
    if p in s.locks then s.locks[p] else {}
  }

  ghost predicate InFlight(w: World, s: Sys, p: nat) {
    p in s.polls && s.polls[p].connection in w.connections
  }

  ghost predicate Step(w: World, s: Sys, a: Action, s': Sys) {
    match a
    case Start(p, c) =>
      && c in w.connections && p !in s.polls
      && var provider := w.connections[c].provider;
      && s' == if c in Lock(s, provider) then s
               else s.(locks := s.locks[provider := Lock(s, provider) + {c}], polls := s.polls[p := Poll(c, Resting(None))])
    case Deliver(p, e) =>
      && InFlight(w, s, p) && s.polls[p].stage.Resting?
      && Delivers(w, s.polls[p].connection, e.messageId)
      && s' == s.(polls := s.polls[p := s.polls[p].(stage := if e.isInbox then Finding(e) else Rest(NotImported))])
    case Wait(p, answers) =>
      && InFlight(w, s, p)
      && var (stage, db) := Await(s.db, w.connections[s.polls[p].connection], s.polls[p].stage, answers);
      && s' == s.(db := db, polls := s.polls[p := s.polls[p].(stage := stage)])
    case End(p) =>
      && InFlight(w, s, p) && s.polls[p].stage.Resting?
      && var c := s.polls[p].connection;
      && var provider := w.connections[c].provider;
      && s' == s.(locks := s.locks[provider := Lock(s, provider) - {c}], polls := s.polls - {p})
    case DeleteCandidate(k) => s' == s.(db := s.db.(candidates := s.db.candidates - {k}))
    case CreateCandidate(company, email) => s' == s.(db := AddCandidate(s.db, Candidate(company, email, None)))
    case CleanUp(chosen) => s' == s.(db := CleanedUp(s.db, chosen))
    case PurgeBodies(chosen) => s' == s.(db := Purged(s.db, chosen))
    case Restart => s' == s.(locks := map[], polls := map[])
  }

  /** A step; one that restarts the server only if `restarts`. */
  ghost predicate Next(w: World, restarts: bool, s: Sys, s': Sys) {
    exists a :: Step(w, s, a, s') && (a.Restart? ==> restarts)
  }

  ghost predicate Idle(s: Sys) {
    s.locks == map[] && s.polls == map[]
  }

  ghost predicate IsRun(w: World, restarts: bool, run: seq<Sys>)
    decreases |run|
  {
    && run != []
    && if |run| == 1 then Idle(run[0])
       else IsRun(w, restarts, run[..|run| - 1]) && Next(w, restarts, run[|run| - 2], run[|run| - 1])
  }

  // ---------------------------------------------------------------------------
  // The lock
  // ---------------------------------------------------------------------------

  /** A poll in flight has marked its connection, and no two have the same. */
  ghost predicate Locked(w: World, s: Sys) {
    && (forall p :: p in s.polls ==> InFlight(w, s, p) && s.polls[p].connection in Lock(s, w.connections[s.polls[p].connection].provider))
    && (forall p, q :: p in s.polls && q in s.polls && p != q ==> s.polls[p].connection != s.polls[q].connection)
  }

  lemma StepKeepsLocked(w: World, s: Sys, a: Action, s': Sys)
    requires Locked(w, s) && Step(w, s, a, s')
    ensures Locked(w, s')
  {
    hide Await, CleanedUp, Purged;
  }

  lemma {:induction false} RunIsLocked(w: World, restarts: bool, run: seq<Sys>)
    requires IsRun(w, restarts, run)
    ensures Locked(w, run[|run| - 1])
    decreases |run|
  {
    hide Step, Locked;
    if |run| == 1 {
      IdleIsLocked(w, run[0]);
    } else {
      RunIsLocked(w, restarts, run[..|run| - 1]);
      var a :| Step(w, run[|run| - 2], a, run[|run| - 1]);
      StepKeepsLocked(w, run[|run| - 2], a, run[|run| - 1]);
    }
  }

  lemma IdleIsLocked(w: World, s: Sys)
    requires Idle(s)
    ensures Locked(w, s)
  {
  }

  /** In every interleaving, with or without restarts, no connection is polled twice at once. */
  lemma OnePollPerConnection(w: World, restarts: bool, run: seq<Sys>, p: nat, q: nat)
    requires IsRun(w, restarts, run)
    requires p in run[|run| - 1].polls && q in run[|run| - 1].polls
    ensures run[|run| - 1].polls[p].connection == run[|run| - 1].polls[q].connection ==> p == q
  {
    hide IsRun;
    RunIsLocked(w, restarts, run);
  }

  // ---------------------------------------------------------------------------
  // Bodies
  // ---------------------------------------------------------------------------

  /** The row that a poll has made unfinished and is bound to finish. */
  function Held(s: Stage): Option<nat> {
    if s.Resting? || s.Finding? || s.Linking? || s.Filtering? || s.Classifying? || s.Tracking? || s.Recording? then None
    else if s.Counting? then None
    else Some(s.row)
  }

  ghost predicate HeldBySome(s: Sys, row: nat) {
    exists p :: p in s.polls && Held(s.polls[p].stage) == Some(row)
  }

  /** A row that is unfinished or still has a body is held by a poll in flight. */
  ghost predicate Tidy(s: Sys) {
    forall r :: r in s.db.rows ==> Clean(s.db.rows[r]) || HeldBySome(s, r)
  }

  /** What one call does to a row: nothing, or the caller then holds it, or it is finished. */
  lemma AwaitTidies(db: Db, c: Connection, s: Stage, a: Answers, r: nat)
    ensures var (s', db') := Await(db, c, s, a);
      r in db'.rows ==>
        || Held(s') == Some(r)
        || Clean(db'.rows[r])
        || (r in db.rows && db'.rows[r] == db.rows[r] && Held(s) != Some(r))
        || (r in db.rows && s.Filtering? && s.found == Some(r) && !Clean(db.rows[r]) && Held(s) != Some(r))
  {
    hide FindImport, Linked, Known, Lower, HasCv, CvEmail;
  }

  lemma WaitKeepsTidy(w: World, s: Sys, p: nat, a: Answers, s': Sys)
    requires Tidy(s) && Step(w, s, Wait(p, a), s')
    ensures Tidy(s')
  {
    hide Await, Clean;
    var stage := s.polls[p].stage;
    forall r | r in s'.db.rows ensures Clean(s'.db.rows[r]) || HeldBySome(s', r) {
      AwaitTidies(s.db, w.connections[s.polls[p].connection], stage, a, r);
      assert Held(s'.polls[p].stage) == Some(r) ==> HeldBySome(s', r);
      if r in s.db.rows && !Clean(s.db.rows[r]) && Held(stage) != Some(r) {
        var q :| q in s.polls && Held(s.polls[q].stage) == Some(r);
        assert s'.polls[q] == s.polls[q];
      }
    }
  }

  /** A step that leaves held rows held, and adds nothing unfinished. */
  lemma OthersKeepTidy(w: World, s: Sys, a: Action, s': Sys)
    requires Tidy(s) && Step(w, s, a, s') && !a.Restart? && !a.Wait?
    ensures Tidy(s')
  {
    hide Await;
    forall r | r in s'.db.rows ensures Clean(s'.db.rows[r]) || HeldBySome(s', r) {
      if !Clean(s.db.rows[r]) {
        var q :| q in s.polls && Held(s.polls[q].stage) == Some(r);
        assert s'.polls[q] == s.polls[q];
      }
    }
  }

  lemma {:induction false} RunIsTidy(w: World, run: seq<Sys>)
    requires IsRun(w, false, run) && AllClean(run[0].db)
    ensures Tidy(run[|run| - 1])
    decreases |run|
  {
    hide Step, Tidy;
    if |run| == 1 {
      assert Tidy(run[0]) by { CleanIsTidy(run[0]); }
    } else {
      RunIsTidy(w, run[..|run| - 1]);
      var a :| Step(w, run[|run| - 2], a, run[|run| - 1]) && !a.Restart?;
      if a.Wait? { WaitKeepsTidy(w, run[|run| - 2], a.poll, a.a, run[|run| - 1]); } else { OthersKeepTidy(w, run[|run| - 2], a, run[|run| - 1]); }
    }
  }

  lemma CleanIsTidy(s: Sys)
    requires AllClean(s.db)
    ensures Tidy(s)
  {
  }

  ghost predicate AllResting(s: Sys) {
    forall p :: p in s.polls ==> s.polls[p].stage.Resting?
  }

  /**
   * Whatever interleaving, messages and answers: when no poll is inside a message,
   * every row is finished and without bodies.
   */
  lemma BodiesNeverOutlivePolls(w: World, run: seq<Sys>, r: nat)
    requires IsRun(w, false, run) && AllClean(run[0].db)
    requires AllResting(run[|run| - 1])
    requires r in run[|run| - 1].db.rows
    ensures Clean(run[|run| - 1].db.rows[r])
  {
    hide IsRun, AllClean;
    RunIsTidy(w, run);
  }
}
