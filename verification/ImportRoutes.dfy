// What the routes of messages decide: exact conditions for importing once and for idle indexes.
module ImportRoutes {
  import opened Wrappers
  import opened EmailImport
  import opened ImportRuns
  import opened ImportOnce

  const NOTHING := Db(map[], map[], 0)

  ghost predicate FromNothing(w: World, restarts: bool, run: seq<Sys>) {
    run != [] && IsRun(w, restarts, run) && run[0].db == NOTHING
  }

  // ---------------------------------------------------------------------------
  // Building runs
  // ---------------------------------------------------------------------------

  ghost predicate Longer(w: World, restarts: bool, run: seq<Sys>, longer: seq<Sys>, s: Sys) {
    FromNothing(w, restarts, longer) && longer == run + [s]
  }

  lemma Extends(w: World, restarts: bool, run: seq<Sys>, a: Action, s: Sys) returns (longer: seq<Sys>)
    requires FromNothing(w, restarts, run) && Step(w, run[|run| - 1], a, s) && !a.Restart?
    ensures Longer(w, restarts, run, longer, s)
  {
    hide Step;
    longer := run + [s];
    assert longer[..|longer| - 1] == run;
  }

  /** Poll `p` is in flight for connection `c`. */
  predicate Polls(w: World, s: Sys, p: nat, c: nat) {
    c in w.connections && p in s.polls && s.polls[p].connection == c
  }

  function Moved(s: Sys, p: nat, c: nat, stage: Stage, db: Db): Sys {
    s.(db := db, polls := s.polls[p := Poll(c, stage)])
  }

  lemma Waits(w: World, restarts: bool, run: seq<Sys>, p: nat, c: nat, a: Answers, stage: Stage, db: Db) returns (longer: seq<Sys>)
    requires FromNothing(w, restarts, run) && Polls(w, run[|run| - 1], p, c)
    requires Await(run[|run| - 1].db, w.connections[c], run[|run| - 1].polls[p].stage, a) == (stage, db)
    ensures Longer(w, restarts, run, longer, Moved(run[|run| - 1], p, c, stage, db))
  {
    hide Await, IsRun;
    longer := Extends(w, restarts, run, Wait(p, a), Moved(run[|run| - 1], p, c, stage, db));
  }

  lemma Receives(w: World, restarts: bool, run: seq<Sys>, p: nat, c: nat, e: Email) returns (longer: seq<Sys>)
    requires FromNothing(w, restarts, run) && Polls(w, run[|run| - 1], p, c) && run[|run| - 1].polls[p].stage.Resting?
    requires Delivers(w, c, e.messageId) && e.isInbox
    ensures Longer(w, restarts, run, longer, Moved(run[|run| - 1], p, c, Finding(e), run[|run| - 1].db))
  {
    hide IsRun;
    longer := Extends(w, restarts, run, Deliver(p, e), Moved(run[|run| - 1], p, c, Finding(e), run[|run| - 1].db));
  }

  /** Two polls, of different connections, in flight over empty tables. */
  lemma StartsBoth(w: World, restarts: bool, c: nat, c': nat) returns (run: seq<Sys>)
    requires c in w.connections && c' in w.connections && c != c'
    ensures FromNothing(w, restarts, run)
    ensures var s := run[|run| - 1];
      s.db == NOTHING && s.polls == map[1 := Poll(c, Resting(None)), 2 := Poll(c', Resting(None))]
  {
    hide Await;
    var x, x' := w.connections[c].provider, w.connections[c'].provider;
    var s := Sys(NOTHING, map[], map[]);
    run := [s];
    s := s.(locks := map[x := {c}], polls := map[1 := Poll(c, Resting(None))]);
    assert Lock(run[0], x) + {c} == {c};
    run := Extends(w, restarts, run, Start(1, c), s);
    s := s.(locks := s.locks[x' := Lock(s, x') + {c'}], polls := s.polls[2 := Poll(c', Resting(None))]);
    run := Extends(w, restarts, run, Start(2, c'), s);
  }

  // ---------------------------------------------------------------------------
  // An application that two connections deliver
  // ---------------------------------------------------------------------------

  const PDF := "application/pdf"

  /** A message with a CV that neither connection sent itself. */
  function Application(m: string, c: Connection, c': Connection): Email {
    Email(m, c.email + c'.email + "xx", "", "", [PDF], true)
  }

  const CLASS := AutoClass(0, "")

  /** Every call succeeds; the prefilter decides `prefilter`, the CV yields `address`. */
  function Succeeds(prefilter: Prefilter, address: string): Answers {
    Answers(false, false, prefilter, None, false, false, Some(Extraction("cv", 100)), false, Some(Some(address)), false, false, None, false, false)
  }

  function Accepts(address: string): Answers {
    Succeeds(AutoClassify(0, ""), address)
  }

  lemma {:induction false} LowerKeepsLength(s: string)
    ensures |Lower(s)| == |s|
    decreases |s|
  {
    if s != "" { LowerKeepsLength(s[1..]); }
  }

  predicate Address(s: string) {
    |s| == 1 && Lower(s) == s
  }

  lemma ApplicationIsForeign(m: string, c: Connection, c': Connection)
    ensures var e := Application(m, c, c');
      && HasCv(e) && |Lower(e.senderEmail)| >= 2
      && Lower(e.senderEmail) != Lower(c.email) && Lower(e.senderEmail) != Lower(c'.email)
  {
    var e := Application(m, c, c');
    LowerKeepsLength(e.senderEmail);
    LowerKeepsLength(c.email);
    LowerKeepsLength(c'.email);
    assert IsCvType(e.attachmentTypes[0]);
  }

  /** Nothing is known of the message. */
  lemma FindsNothing(db: Db, x: Connection, e: Email, prefilter: Prefilter)
    requires FindImport(db, e.messageId).None? && Lower(e.senderEmail) != Lower(x.email) && !prefilter.Throws?
    ensures Await(db, x, Finding(e), Succeeds(prefilter, "")) == (AfterLookup(x, e, None, Succeeds(prefilter, "")), db)
    ensures AfterLookup(x, e, None, Succeeds(Skip, "")) == Filtering(e, None)
    ensures AfterLookup(x, e, None, Accepts("")) == Recording(e, None, CLASS)
  {
    hide Lower, FindImport;
  }

  /** A poll looks the message up and records it as an eligible application. */
  lemma RecordsIt(w: World, restarts: bool, run: seq<Sys>, p: nat, c: nat, e: Email) returns (longer: seq<Sys>)
    requires FromNothing(w, restarts, run) && Polls(w, run[|run| - 1], p, c) && run[|run| - 1].polls[p].stage.Resting?
    requires Delivers(w, c, e.messageId) && e.isInbox && w.connections[c].autoImport
    requires FindImport(run[|run| - 1].db, e.messageId).None? && Lower(e.senderEmail) != Lower(w.connections[c].email)
    ensures var s := run[|run| - 1];
      && FromNothing(w, restarts, longer) && |longer| == |run| + 3 && longer[..|run|] == run
      && longer[|run|].db == s.db && longer[|run| + 1].db == s.db
      && longer[|run| + 2] == Moved(s, p, c, Marking(e, s.db.next, CLASS), AddRow(s.db, PendingRow(e, w.connections[c], CLASS)))
  {
    hide Await, IsRun, Lower, FindImport, AfterLookup;
    var s, x := run[|run| - 1], w.connections[c];
    var db := AddRow(s.db, PendingRow(e, x, CLASS));
    longer := Receives(w, restarts, run, p, c, e);
    FindsNothing(s.db, x, e, AutoClassify(0, ""));
    longer := Waits(w, restarts, longer, p, c, Accepts(""), Recording(e, None, CLASS), s.db);
    assert Await(s.db, x, Recording(e, None, CLASS), Accepts("")) == (Marking(e, s.db.next, CLASS), db) by { AwaitsRecording(s.db, x, e); }
    longer := Waits(w, restarts, longer, p, c, Accepts(""), Marking(e, s.db.next, CLASS), db);
  }

  lemma AwaitsRecording(db: Db, x: Connection, e: Email)
    requires FindImport(db, e.messageId).None? && x.autoImport
    ensures Await(db, x, Recording(e, None, CLASS), Accepts("")) == (Marking(e, db.next, CLASS), AddRow(db, PendingRow(e, x, CLASS)))
  {
    hide FindImport;
  }

  function Marked(db: Db, row: nat): Db
    requires row in db.rows
  {
    PutRow(db, row, db.rows[row].(status := PROCESSING))
  }

  /** The calls from marking a row to creating the candidate, with nothing in between. */
  lemma AwaitsCandidate(db: Db, x: Connection, e: Email, row: nat, address: string)
    requires MayLink(db, row) && HasCv(e) && Address(address)
    requires !Known(db.candidates, x.company, Lower(e.senderEmail)) && !Known(db.candidates, x.company, address)
    ensures Await(db, x, Marking(e, row, CLASS), Accepts(address)) == (Uploading(e, row, CLASS), Marked(db, row))
    ensures Await(Marked(db, row), x, Uploading(e, row, CLASS), Accepts(address)) == (Extracting(e, row, CLASS), Marked(db, row))
    ensures Await(Marked(db, row), x, Extracting(e, row, CLASS), Accepts(address)) == (FindingSender(e, row, CLASS), Marked(db, row))
    ensures Await(Marked(db, row), x, FindingSender(e, row, CLASS), Accepts(address)) == (Parsing(e, row, CLASS), Marked(db, row))
    ensures Await(Marked(db, row), x, Parsing(e, row, CLASS), Accepts(address)) == (FindingParsed(e, row, CLASS, address), Marked(db, row))
    ensures Await(Marked(db, row), x, FindingParsed(e, row, CLASS, address), Accepts(address)) == (Creating(e, row, CLASS, address, false), Marked(db, row))
    ensures Await(Marked(db, row), x, Creating(e, row, CLASS, address, false), Accepts(address))
      == (Importing(e, row), AddCandidate(Marked(db, row), Candidate(x.company, address, Some(row))))
  {
    hide HasCv, Known, Lower;
  }

  lemma CreatesIt(w: World, restarts: bool, run: seq<Sys>, p: nat, c: nat, e: Email, row: nat, address: string) returns (longer: seq<Sys>)
    requires FromNothing(w, restarts, run) && Polls(w, run[|run| - 1], p, c) && run[|run| - 1].polls[p].stage == Marking(e, row, CLASS)
    requires MayLink(run[|run| - 1].db, row) && HasCv(e) && Address(address)
    requires var company := w.connections[c].company; var known := run[|run| - 1].db.candidates;
      !Known(known, company, Lower(e.senderEmail)) && !Known(known, company, address)
    ensures var s := run[|run| - 1];
      && FromNothing(w, restarts, longer) && |longer| == |run| + 7 && longer[..|run|] == run
      && (forall i :: |run| <= i < |run| + 6 ==> longer[i].db == Marked(s.db, row))
      && longer[|run| + 6] == Moved(s, p, c, Importing(e, row), AddCandidate(Marked(s.db, row), Candidate(w.connections[c].company, address, Some(row))))
  {
    hide Await, IsRun, HasCv, Known, Lower, MayLink;
    var s, x := run[|run| - 1], w.connections[c];
    AwaitsCandidate(s.db, x, e, row, address);
    assert row in s.db.rows by { LinkableIsThere(s.db, row); }
    var marked, a := Marked(s.db, row), Accepts(address);
    longer := Waits(w, restarts, run, p, c, a, Uploading(e, row, CLASS), marked);
    longer := Waits(w, restarts, longer, p, c, a, Extracting(e, row, CLASS), marked);
    longer := Waits(w, restarts, longer, p, c, a, FindingSender(e, row, CLASS), marked);
    longer := Waits(w, restarts, longer, p, c, a, Parsing(e, row, CLASS), marked);
    longer := Waits(w, restarts, longer, p, c, a, FindingParsed(e, row, CLASS, address), marked);
    longer := Waits(w, restarts, longer, p, c, a, Creating(e, row, CLASS, address, false), marked);
    longer := Waits(w, restarts, longer, p, c, a, Importing(e, row), AddCandidate(marked, Candidate(x.company, address, Some(row))));
  }

  lemma LinkableIsThere(db: Db, row: nat)
    requires MayLink(db, row)
    ensures row in db.rows
  {
  }

  // ---------------------------------------------------------------------------
  // Two candidates from one message
  // ---------------------------------------------------------------------------

  lemma {:induction false} OriginPersists(run: seq<Sys>, longer: seq<Sys>, k: nat)
    requires run != [] && run <= longer
    requires forall i :: |run| - 1 <= i < |longer| ==> k in longer[i].db.candidates
    ensures Origin(longer, k) == Origin(run, k)
    decreases |longer|
  {
    hide MessageOf;
    if |longer| > |run| {
      var init := longer[..|longer| - 1];
      assert k in longer[|longer| - 2].db.candidates;
      OriginPersists(run, init, k);
    } else {
      assert longer == run;
    }
  }

  lemma OriginAppears(run: seq<Sys>, k: nat)
    requires |run| > 1 && k !in run[|run| - 2].db.candidates
    ensures Origin(run, k) == MessageOf(run[|run| - 1].db, k)
  {
    hide MessageOf;
  }

  /** The row of the application, recorded, and then the candidate that is linked to it. */
  function RecordedOnce(e: Email, x: Connection): Db {
    AddRow(NOTHING, PendingRow(e, x, CLASS))
  }

  function CreatedOnce(e: Email, x: Connection): Db {
    AddCandidate(Marked(RecordedOnce(e, x), 0), Candidate(x.company, "a", Some(0)))
  }

  /** The other connection's poll has overwritten the row. */
  function Overwritten(e: Email, x: Connection, x': Connection): Db {
    PutRow(CreatedOnce(e, x), 0, SkipRow(Some(CreatedOnce(e, x).rows[0]), e, x'))
  }

  /** The clean-up has deleted the row, and with it the link. */
  function Detached(x: Connection): Db {
    Db(map[], map[1 := Candidate(x.company, "a", None)], 2)
  }

  lemma FindsRecorded(e: Email, x: Connection, x': Connection)
    requires Lower(e.senderEmail) != Lower(x'.email)
    ensures var db := RecordedOnce(e, x);
      && Await(db, x', Finding(e), Succeeds(Skip, "")) == (Linking(e, 0), db)
      && Await(db, x', Linking(e, 0), Succeeds(Skip, "")) == (Filtering(e, Some(0)), db)
    ensures MayLink(RecordedOnce(e, x), 0)
  {
    hide Lower;
    var db := RecordedOnce(e, x);
    assert FindBelow(db.rows, e.messageId, 1) == Some(0);
  }

  lemma OverwritesAndDetaches(e: Email, x: Connection, x': Connection)
    ensures Await(CreatedOnce(e, x), x', Filtering(e, Some(0)), Succeeds(Skip, "")) == (Rest(NotImported), Overwritten(e, x, x'))
    ensures CleanedUp(Overwritten(e, x, x'), {0}) == Detached(x)
    ensures Await(Detached(x), x, Importing(e, 0), Accepts("")) == (Failing(e, 0), Detached(x))
    ensures Await(Detached(x), x, Failing(e, 0), Accepts("")) == (Rest(Threw), Detached(x))
    ensures FindImport(Detached(x), e.messageId).None?
  {
    var db := CleanedUp(Overwritten(e, x, x'), {0});
    assert db.rows == map[] && db.candidates == Detached(x).candidates;
    assert FindBelow(map[], e.messageId, 0).None? && FindBelow(map[], e.messageId, 1).None?;
  }

  /** The first candidate, while the other connection's poll has already looked the row up. */
  lemma CreatesFirst(w: World, restarts: bool, m: string, c: nat, c': nat) returns (run: seq<Sys>)
    requires Delivers(w, c, m) && Delivers(w, c', m) && c != c' && w.connections[c].autoImport
    ensures var x, x' := w.connections[c], w.connections[c'];
      var e := Application(m, x, x');
      && FromNothing(w, restarts, run) && run[|run| - 1].db == CreatedOnce(e, x)
      && run[|run| - 1].polls == map[1 := Poll(c, Importing(e, 0)), 2 := Poll(c', Filtering(e, Some(0)))]
      && Origin(run, 1) == Some(m)
  {
    hide Await, Next, HasCv, Known, Lower, MayLink, FindImport, Origin, Marked;
    var x, x' := w.connections[c], w.connections[c'];
    var e := Application(m, x, x');
    ApplicationIsForeign(m, x, x');
    run := StartsBoth(w, restarts, c, c');
    assert FindImport(NOTHING, m).None? by { NothingIsFound(m); }
    run := RecordsIt(w, restarts, run, 1, c, e);
    FindsRecorded(e, x, x');
    run := Receives(w, restarts, run, 2, c', e);
    run := Waits(w, restarts, run, 2, c', Succeeds(Skip, ""), Linking(e, 0), RecordedOnce(e, x));
    run := Waits(w, restarts, run, 2, c', Succeeds(Skip, ""), Filtering(e, Some(0)), RecordedOnce(e, x));
    NobodyIsKnown(x.company, Lower(e.senderEmail));
    NobodyIsKnown(x.company, "a");
    Letters();
    run := CreatesIt(w, restarts, run, 1, c, e, 0, "a");
    FirstIsLinked(e, x);
    OriginAppears(run, 1);
  }

  lemma NothingIsFound(m: string)
    ensures FindImport(NOTHING, m).None?
  {
  }

  lemma NobodyIsKnown(company: nat, email: string)
    ensures !Known(map[], company, email)
  {
  }

  lemma Letters()
    ensures Address("a") && Address("b")
  {
  }

  lemma FirstIsLinked(e: Email, x: Connection)
    ensures 1 !in Marked(RecordedOnce(e, x), 0).candidates && MessageOf(CreatedOnce(e, x), 1) == Some(e.messageId)
  {
  }

  /** Then the row is overwritten and cleaned up, and the link with it. */
  lemma LosesLink(w: World, restarts: bool, m: string, c: nat, c': nat) returns (run: seq<Sys>)
    requires Delivers(w, c, m) && Delivers(w, c', m) && c != c' && w.connections[c].autoImport
    ensures FromNothing(w, restarts, run) && run[|run| - 1].db == Detached(w.connections[c])
    ensures run[|run| - 1].polls == map[1 := Poll(c, Rest(Threw)), 2 := Poll(c', Rest(NotImported))]
    ensures Origin(run, 1) == Some(m)
  {
    hide Await, Next, Application, FindImport, Origin, CleanedUp, CreatedOnce, Overwritten;
    var x, x' := w.connections[c], w.connections[c'];
    var e := Application(m, x, x');
    var first := CreatesFirst(w, restarts, m, c, c');
    OverwritesAndDetaches(e, x, x');
    run := Waits(w, restarts, first, 2, c', Succeeds(Skip, ""), Rest(NotImported), Overwritten(e, x, x'));
    run := Extends(w, restarts, run, CleanUp({0}), run[|run| - 1].(db := Detached(x)));
    run := Waits(w, restarts, run, 1, c, Accepts(""), Failing(e, 0), Detached(x));
    run := Waits(w, restarts, run, 1, c, Accepts(""), Rest(Threw), Detached(x));
    assert 1 in CreatedOnce(e, x).candidates && 1 in Overwritten(e, x, x').candidates by { FirstRemains(e, x, x'); }
    assert run[|run| - 1].polls == map[1 := Poll(c, Rest(Threw)), 2 := Poll(c', Rest(NotImported))];
    OriginPersists(first, run, 1);
  }

  lemma FirstRemains(e: Email, x: Connection, x': Connection)
    ensures 1 in CreatedOnce(e, x).candidates && 1 in Overwritten(e, x, x').candidates
  {
  }

  /**
   * If two connections deliver a message and one of them imports automatically,
   * some run has two surviving candidates from that message: the other poll
   * overwrites the row after the candidate is linked to it, the clean-up deletes
   * the row, and the message is imported again.
   */
  lemma TwoCandidates(w: World, restarts: bool, m: string, c: nat, c': nat) returns (run: seq<Sys>)
    requires Delivers(w, c, m) && Delivers(w, c', m) && c != c' && w.connections[c].autoImport
    ensures FromNothing(w, restarts, run) && Origin(run, 1) == Origin(run, 3) == Some(m)
    ensures 1 in run[|run| - 1].db.candidates && 3 in run[|run| - 1].db.candidates
  {
    hide Await, Next, HasCv, Known, Lower, MayLink, FindImport, Origin, Marked;
    var x, x' := w.connections[c], w.connections[c'];
    var e := Application(m, x, x');
    ApplicationIsForeign(m, x, x');
    var lost := LosesLink(w, restarts, m, c, c');
    assert FindImport(Detached(x), m).None? by { OverwritesAndDetaches(e, x, x'); }
    run := RecordsIt(w, restarts, lost, 1, c, e);
    var db := AddRow(Detached(x), PendingRow(e, x, CLASS));
    OthersAreUnknown(x, e, db);
    Letters();
    run := CreatesIt(w, restarts, run, 1, c, e, 2, "b");
    SecondIsLinked(x, e);
    OriginAppears(run, 3);
    OriginPersists(lost, run, 1);
  }

  lemma OthersAreUnknown(x: Connection, e: Email, db: Db)
    requires db == AddRow(Detached(x), PendingRow(e, x, CLASS)) && |Lower(e.senderEmail)| >= 2
    ensures !Known(db.candidates, x.company, Lower(e.senderEmail)) && !Known(db.candidates, x.company, "b") && MayLink(db, 2)
  {
    hide Lower;
    assert "a" != "b" && |"a"| == 1;
  }

  lemma SecondIsLinked(x: Connection, e: Email)
    ensures var marked := Marked(AddRow(Detached(x), PendingRow(e, x, CLASS)), 2);
      && 1 in marked.candidates && 3 !in marked.candidates
      && MessageOf(AddCandidate(marked, Candidate(x.company, "b", Some(2))), 3) == Some(e.messageId)
  {
  }

  // ---------------------------------------------------------------------------
  // The exact conditions
  // ---------------------------------------------------------------------------

  /** In every run from empty tables at most one surviving candidate comes from each message. */
  ghost predicate AlwaysOneEach(w: World, restarts: bool) {
    forall run :: FromNothing(w, restarts, run) ==> OneEach(run)
  }

  /**
   * Importing once is guaranteed exactly when no message that two connections
   * deliver is delivered by one that imports automatically, with or without restarts.
   */
  lemma OnceExactlyOnSafeRoutes(w: World, restarts: bool)
    ensures AlwaysOneEach(w, restarts) <==> SafeRoutes(w)
  {
    hide IsRun, OneEach, Origin, Base;
    if SafeRoutes(w) {
      assert Base(NOTHING) by { NothingIsBase(); }
      forall run | FromNothing(w, restarts, run) ensures OneEach(run) {
        AtMostOnce(w, restarts, run);
      }
    } else {
      var m, c, c' :| Delivers(w, c, m) && Delivers(w, c', m) && c != c' && w.connections[c].autoImport;
      var run := TwoCandidates(w, restarts, m, c, c');
      assert !OneEach(run) by { NotOneEach(run, 1, 3); }
    }
  }

  lemma NotOneEach(run: seq<Sys>, k: nat, l: nat)
    requires run != [] && k in run[|run| - 1].db.candidates && l in run[|run| - 1].db.candidates
    requires Origin(run, k).Some? && Origin(run, k) == Origin(run, l) && k != l
    ensures !OneEach(run)
  {
    hide Origin;
  }

  lemma NothingIsBase()
    ensures Base(NOTHING)
  {
  }

  /** In no run from empty tables is a poll about to write what an index refuses. */
  ghost predicate IndexesIdle(w: World, restarts: bool) {
    forall run :: FromNothing(w, restarts, run) ==> AllUnrefused(run[|run| - 1])
  }

  /** Two polls that both find no row: the second to record one is refused. */
  lemma TwoRoutesAreRefused(w: World, restarts: bool, m: string, c: nat, c': nat) returns (run: seq<Sys>)
    requires Delivers(w, c, m) && Delivers(w, c', m) && c != c'
    ensures FromNothing(w, restarts, run) && !AllUnrefused(run[|run| - 1])
  {
    hide Await, Next, Lower, FindImport, AfterLookup;
    var x, x' := w.connections[c], w.connections[c'];
    var e, a := Application(m, x, x'), Succeeds(Skip, "");
    ApplicationIsForeign(m, x, x');
    NothingIsFound(m);
    FindsNothing(NOTHING, x, e, Skip);
    FindsNothing(NOTHING, x', e, Skip);
    run := StartsBoth(w, restarts, c, c');
    run := Receives(w, restarts, run, 1, c, e);
    run := Receives(w, restarts, run, 2, c', e);
    run := Waits(w, restarts, run, 1, c, a, Filtering(e, None), NOTHING);
    run := Waits(w, restarts, run, 2, c', a, Filtering(e, None), NOTHING);
    var db := AddRow(NOTHING, SkipRow(None, e, x));
    assert Await(NOTHING, x, Filtering(e, None), a) == (Rest(NotImported), db) by { AwaitsFiltering(x, e, a); }
    run := Waits(w, restarts, run, 1, c, a, Rest(NotImported), db);
    assert run[|run| - 1].polls[2].stage == Filtering(e, None) && db.rows[0].messageId == m;
    assert !Unrefused(db, Filtering(e, None));
  }

  lemma AwaitsFiltering(x: Connection, e: Email, a: Answers)
    ensures Await(NOTHING, x, Filtering(e, None), a) == (Rest(NotImported), AddRow(NOTHING, SkipRow(None, e, x)))
  {
  }

  /** The indexes are never needed exactly when every message has one route. */
  lemma IdleExactlyOnOneRoute(w: World, restarts: bool)
    ensures IndexesIdle(w, restarts) <==> OneRoute(w)
  {
    hide IsRun, AllUnrefused, Base;
    if OneRoute(w) {
      assert Base(NOTHING) by { NothingIsBase(); }
      forall run | FromNothing(w, restarts, run) ensures AllUnrefused(run[|run| - 1]) {
        IndexesNeverFire(w, restarts, run);
      }
    } else {
      var m, c, c' :| Delivers(w, c, m) && Delivers(w, c', m) && c != c';
      var run := TwoRoutesAreRefused(w, restarts, m, c, c');
    }
  }
}
