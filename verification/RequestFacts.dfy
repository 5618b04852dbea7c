// Every request, said without the functions that carry it out: when it is accepted and what the tables then hold.
module RequestFacts {
  import opened Wrappers
  import opened Zones
  import opened SlotConflicts
  import opened Sorting
  import opened SlotEngine
  import opened GridFacts
  import opened GridOrder
  import opened Interviews
  import opened BookingSafety
  import opened LiveOffers

  // ---------------------------------------------------------------------------
  // Times and the slots that offer them
  // ---------------------------------------------------------------------------

  /** `i` is confirmed with `user` for a time that overlaps `range`. */
  predicate Occupies(i: Interview, user: nat, range: TimeRange) {
    && i.interviewer == Some(user) && i.status == Scheduled && i.scheduledAt.Some?
    && range.startsAt < i.scheduledAt.value + i.durationMinutes * 60_000
    && i.scheduledAt.value < range.endsAt
  }

  /** Some interview of `user` other than `except` occupies `range`. */
  ghost predicate Taken(db: Db, user: nat, except: Option<nat>, range: TimeRange) {
    exists j :: j in db.interviews && except != Some(j) && Occupies(db.interviews[j], user, range)
  }

  /** `wall` is the wall time of `range`, for `minutes` minutes. */
  predicate IsTimeOf(wall: string, z: Zone, minutes: nat, range: TimeRange) {
    var utc := ZonedWallTimeToUtc(wall, z);
    utc.Some? && range.startsAt == utc.value && range.endsAt == utc.value + minutes * 60_000
  }

  ghost predicate Readable(walls: seq<string>, z: Zone) {
    forall w :: w in walls ==> ZonedWallTimeToUtc(w, z).Some?
  }

  ghost predicate AnyTaken(db: Db, interviewer: Option<nat>, except: Option<nat>, walls: seq<string>, z: Zone, minutes: nat) {
    interviewer.Some? && exists w, range :: w in walls && IsTimeOf(w, z, minutes, range) && Taken(db, interviewer.value, except, range)
  }

  /** The rows of interview `id` for exactly `range`. */
  function RowsFor(db: Db, id: nat, range: TimeRange): set<nat> {
    set s | s in db.slots && db.slots[s] == Slot(id, range)
  }

  /** The different wall times among `walls` for exactly `range`. */
  function WallsFor(walls: seq<string>, z: Zone, minutes: nat, range: TimeRange): set<string> {
    set w | w in walls && IsTimeOf(w, z, minutes, range)
  }

  /** Interview `id` has one slot row for each different wall time, and no other. */
  ghost predicate OffersExactly(db: Db, id: nat, walls: seq<string>, z: Zone, minutes: nat) {
    forall range :: |RowsFor(db, id, range)| == |WallsFor(walls, z, minutes, range)|
  }

  /** The slots of every interview but `id` are the same. */
  ghost predicate OtherSlotsStay(db: Db, db': Db, id: nat) {
    && (forall s :: s in db.slots && db.slots[s].interview != id ==> s in db'.slots && db'.slots[s] == db.slots[s])
    && (forall s :: s in db'.slots && db'.slots[s].interview != id ==> s in db.slots)
  }

  ghost predicate FreshSlots(db: Db) {
    forall s :: s in db.slots ==> s < db.nextSlot
  }

  // ---------------------------------------------------------------------------
  // Building slots
  // ---------------------------------------------------------------------------

  lemma {:induction false} UniqueIsDistinct(walls: seq<string>)
    ensures Distinct(Unique(walls))
    decreases |walls|
  {
    if walls != [] {
      UniqueIsDistinct(walls[..|walls| - 1]);
      UniqueMembers(walls[..|walls| - 1]);
    }
  }

  lemma {:induction false} BuiltIsReadable(walls: seq<string>, z: Zone, minutes: nat)
    ensures ConvertAll(walls, z, minutes).Some? <==> Readable(walls, z)
    decreases |walls|
  {
    hide ZonedWallTimeToUtc;
    if walls != [] {
      BuiltIsReadable(walls[1..], z, minutes);
      assert forall w :: w in walls <==> w == walls[0] || w in walls[1..];
    }
  }

  lemma SlotsAreReadable(walls: seq<string>, z: Zone, minutes: nat)
    ensures BuildSlots(walls, z, minutes).Some? <==> Readable(walls, z)
  {
    hide Unique, ConvertAll, ZonedWallTimeToUtc;
    BuiltIsReadable(Unique(walls), z, minutes);
    UniqueMembers(walls);
  }

  lemma BuiltTimes(walls: seq<string>, z: Zone, minutes: nat, i: nat, range: TimeRange)
    requires ConvertAll(walls, z, minutes).Some? && i < |walls|
    ensures ConvertAll(walls, z, minutes).value[i] == range <==> IsTimeOf(walls[i], z, minutes, range)
  {
    hide ZonedWallTimeToUtc, ConvertAll;
  }

  /** The rows among `first` to `first + n` that get `range`. */
  function NewRows(ranges: seq<TimeRange>, first: nat, n: nat, range: TimeRange): (rows: set<nat>)
    requires n <= |ranges|
    ensures forall s :: s in rows <==> first <= s < first + n && ranges[s - first] == range
  {
    if n == 0 then {} else NewRows(ranges, first, n - 1, range) + if ranges[n - 1] == range then {first + (n - 1)} else {}
  }

  lemma MoreRows(ranges: seq<TimeRange>, first: nat, n: nat, range: TimeRange)
    requires 0 < n <= |ranges|
    ensures |NewRows(ranges, first, n, range)| == |NewRows(ranges, first, n - 1, range)| + if ranges[n - 1] == range then 1 else 0
  {
    assert first + (n - 1) !in NewRows(ranges, first, n - 1, range);
  }

  lemma MoreWalls(walls: seq<string>, z: Zone, minutes: nat, n: nat, range: TimeRange)
    requires Distinct(walls) && 0 < n <= |walls|
    ensures var fewer := WallsFor(walls[..n - 1], z, minutes, range);
      |WallsFor(walls[..n], z, minutes, range)| == |fewer| + if IsTimeOf(walls[n - 1], z, minutes, range) then 1 else 0
  {
    hide IsTimeOf;
    var fewer, last := WallsFor(walls[..n - 1], z, minutes, range), walls[n - 1];
    assert walls[..n] == walls[..n - 1] + [last];
    assert last !in walls[..n - 1];
    if IsTimeOf(last, z, minutes, range) {
      assert WallsFor(walls[..n], z, minutes, range) == fewer + {last};
    } else {
      assert WallsFor(walls[..n], z, minutes, range) == fewer;
    }
  }

  /** The new rows for a range are as many as the wall times for it. */
  lemma {:induction false} RowsCount(walls: seq<string>, z: Zone, minutes: nat, ranges: seq<TimeRange>, first: nat, n: nat, range: TimeRange)
    requires Distinct(walls) && |ranges| == |walls| && n <= |walls|
    requires forall i :: 0 <= i < |walls| ==> (ranges[i] == range <==> IsTimeOf(walls[i], z, minutes, range))
    ensures |NewRows(ranges, first, n, range)| == |WallsFor(walls[..n], z, minutes, range)|
    decreases n
  {
    hide IsTimeOf, WallsFor, Distinct, NewRows;
    if n == 0 {
      assert walls[..0] == [];
      NoWalls(z, minutes, range);
      assert NewRows(ranges, first, 0, range) == {};
    } else {
      MoreRows(ranges, first, n, range);
      RowsCount(walls, z, minutes, ranges, first, n - 1, range);
      MoreWalls(walls, z, minutes, n, range);
    }
  }

  lemma NoWalls(z: Zone, minutes: nat, range: TimeRange)
    ensures WallsFor([], z, minutes, range) == {}
  {
  }

  lemma NewRowsFor(db: Db, id: nat, ranges: seq<TimeRange>, range: TimeRange)
    requires FreshSlots(db) && forall s :: s in db.slots ==> db.slots[s].interview != id
    ensures RowsFor(AddSlots(db, id, ranges), id, range) == NewRows(ranges, db.nextSlot, |ranges|, range)
  {
    var db', rows := AddSlots(db, id, ranges), NewRows(ranges, db.nextSlot, |ranges|, range);
    forall s ensures s in RowsFor(db', id, range) <==> s in rows {
      if db.nextSlot <= s < db.nextSlot + |ranges| { assert db'.slots[s] == Slot(id, ranges[s - db.nextSlot]); }
    }
  }

  /** Adding the built slots to an interview without slots offers exactly the wall times. */
  lemma AddedSlotsOffer(db: Db, id: nat, walls: seq<string>, z: Zone, minutes: nat)
    requires BuildSlots(walls, z, minutes).Some? && FreshSlots(db) && forall s :: s in db.slots ==> db.slots[s].interview != id
    ensures var db' := AddSlots(db, id, BuildSlots(walls, z, minutes).value);
      OffersExactly(db', id, walls, z, minutes) && OtherSlotsStay(db, db', id)
  {
    hide ConvertAll, Unique, IsTimeOf, AddSlots, RowsFor, FreshSlots, Distinct, ZonedWallTimeToUtc, NewRows, OtherSlotsStay;
    var u, ranges := Unique(walls), BuildSlots(walls, z, minutes).value;
    UniqueIsDistinct(walls);
    UniqueMembers(walls);
    forall range ensures |RowsFor(AddSlots(db, id, ranges), id, range)| == |WallsFor(walls, z, minutes, range)| {
      forall i | 0 <= i < |u| ensures ranges[i] == range <==> IsTimeOf(u[i], z, minutes, range) {
        BuiltTimes(u, z, minutes, i, range);
      }
      RowsCount(u, z, minutes, ranges, db.nextSlot, |u|, range);
      assert u[..|u|] == u;
      NewRowsFor(db, id, ranges, range);
      assert WallsFor(walls, z, minutes, range) == WallsFor(u, z, minutes, range);
    }
    AddingLeavesOthers(db, id, ranges);
  }

  lemma AddingLeavesOthers(db: Db, id: nat, ranges: seq<TimeRange>)
    requires FreshSlots(db)
    ensures OtherSlotsStay(db, AddSlots(db, id, ranges), id)
  {
  }

  lemma ClashIsTaken(db: Db, user: nat, except: Option<nat>, range: TimeRange)
    ensures Clashes(db, user, except, range) <==> Taken(db, user, except, range)
  {
    assert forall j :: j in db.interviews && IsBooking(db.interviews[j], user) ==>
      (RangesOverlap(range, Busy(db.interviews[j])) <==> Occupies(db.interviews[j], user, range));
  }

  lemma AnyClashIsTaken(db: Db, interviewer: Option<nat>, except: Option<nat>, walls: seq<string>, z: Zone, minutes: nat)
    requires BuildSlots(walls, z, minutes).Some?
    ensures AnyClashes(db, interviewer, except, BuildSlots(walls, z, minutes).value) <==> AnyTaken(db, interviewer, except, walls, z, minutes)
  {
    hide ConvertAll, Unique, IsTimeOf, Clashes, Taken;
    var u, ranges := Unique(walls), BuildSlots(walls, z, minutes).value;
    UniqueMembers(walls);
    if interviewer.Some? {
      forall i | 0 <= i < |ranges| ensures IsTimeOf(u[i], z, minutes, ranges[i]) && (Clashes(db, interviewer.value, except, ranges[i]) <==> Taken(db, interviewer.value, except, ranges[i])) {
        BuiltTimes(u, z, minutes, i, ranges[i]);
        ClashIsTaken(db, interviewer.value, except, ranges[i]);
      }
      forall w, range | w in walls && IsTimeOf(w, z, minutes, range) ensures exists i :: 0 <= i < |ranges| && ranges[i] == range {
        var i :| 0 <= i < |u| && u[i] == w;
        BuiltTimes(u, z, minutes, i, range);
      }
      forall i | 0 <= i < |ranges| ensures u[i] in walls {
        assert u[i] in u;
      }
    }
  }

  // ---------------------------------------------------------------------------
  // Creating an interview
  // ---------------------------------------------------------------------------

  /** The recruiter offers times, asked for or by default when there are any. */
  predicate OffersTimes(r: Request)
    requires r.Create?
  {
    r.mode == Some(ManualSlots) || (r.mode.None? && r.walls != [])
  }

  /** When a creation is refused, and why. */
  lemma CreateIsExact(db: Db, r: Request, now: int)
    requires r.Create?
    ensures var read := Read(db, r, now);
      if !OffersTimes(r) then (if r.interviewer.None? then read == Err(BadRequest) else read.Ok?)
      else if r.walls == [] then read == Err(BadRequest)
      else if !Readable(r.walls, r.zone) then read == Err(Unreadable)
      else if AnyTaken(db, r.interviewer, None, r.walls, r.zone, r.durationMinutes) then read == Err(BadRequest)
      else read.Ok?
  {
    hide BuildSlots, AnyClashes, AnyTaken;
    SlotsAreReadable(r.walls, r.zone, r.durationMinutes);
    if BuildSlots(r.walls, r.zone, r.durationMinutes).Some? {
      AnyClashIsTaken(db, r.interviewer, None, r.walls, r.zone, r.durationMinutes);
    }
  }

  /**
   * An accepted creation, written whenever it may be: one new row as asked for, an
   * open FIXED offer with exactly the asked times or a request without slots, and
   * nothing else changes.
   */
  lemma CreatedTables(db: Db, r: Request, asked: int, db2: Db, now: int)
    requires r.Create? && Read(db, r, asked).Ok? && FreshSlots(db2) && forall s :: s in db2.slots ==> db2.slots[s].interview < db2.nextInterview
    ensures var w := Write(db2, Read(db, r, asked).value, now);
      && w.Ok? && w.value.nextInterview == db2.nextInterview + 1
      && w.value.interviews == db2.interviews[db2.nextInterview := Interview(r.interviewer, r.durationMinutes, r.zone, asked,
           if OffersTimes(r) then AwaitingCandidate else AwaitingManager, Fixed, None, None)]
      && OffersExactly(w.value, db2.nextInterview, if OffersTimes(r) then r.walls else [], r.zone, r.durationMinutes)
      && OtherSlotsStay(db2, w.value, db2.nextInterview)
  {
    hide BuildSlots, AnyClashes, OffersExactly, OtherSlotsStay;
    var id := db2.nextInterview;
    var p := Read(db, r, asked).value;
    var with := db2.(interviews := db2.interviews[id := p.row], nextInterview := id + 1);
    if OffersTimes(r) {
      AddedSlotsOffer(with, id, r.walls, r.zone, r.durationMinutes);
    } else {
      NothingBuilt(r.zone, r.durationMinutes);
      AddedSlotsOffer(with, id, [], r.zone, r.durationMinutes);
    }
    SlotsAlike(with, db2, AddSlots(with, id, p.ranges), id);
  }

  lemma NothingBuilt(z: Zone, minutes: nat)
    ensures BuildSlots([], z, minutes) == Some([])
  {
  }

  lemma SlotsAlike(a: Db, b: Db, db': Db, id: nat)
    requires a.slots == b.slots && OtherSlotsStay(a, db', id)
    ensures OtherSlotsStay(b, db', id)
  {
  }

  // ---------------------------------------------------------------------------
  // The manager's answer
  // ---------------------------------------------------------------------------

  /** When submitted times are refused, and why. */
  lemma SubmitIsExact(db: Db, id: nat, user: nat, walls: seq<string>, now: int)
    ensures var read := Read(db, Submit(id, user, walls), now);
      if id !in db.interviews then read == Err(NotFound)
      else
        var i := db.interviews[id];
        if i.interviewer != Some(user) then read == Err(Forbidden)
        else if i.status != AwaitingManager || walls == [] then read == Err(BadRequest)
        else if !Readable(walls, i.zone) then read == Err(Unreadable)
        else if AnyTaken(db, Some(user), Some(id), walls, i.zone, i.durationMinutes) then read == Err(BadRequest)
        else read.Ok?
  {
    hide BuildSlots, AnyClashes, AnyTaken;
    if id in db.interviews {
      var i := db.interviews[id];
      SlotsAreReadable(walls, i.zone, i.durationMinutes);
      if BuildSlots(walls, i.zone, i.durationMinutes).Some? {
        AnyClashIsTaken(db, i.interviewer, Some(id), walls, i.zone, i.durationMinutes);
      }
    }
  }

  /**
   * Accepted times, written whenever it may be: the interview offers exactly them,
   * its row is an open FIXED offer and otherwise as it was, and nothing else changes.
   */
  lemma SubmittedTables(db: Db, id: nat, user: nat, walls: seq<string>, asked: int, db2: Db, now: int)
    requires Read(db, Submit(id, user, walls), asked).Ok? && FreshSlots(db2) && id in db2.interviews
    ensures id in db.interviews
    ensures var w := Write(db2, Read(db, Submit(id, user, walls), asked).value, now);
      && w.Ok? && w.value.nextInterview == db2.nextInterview
      && w.value.interviews == db2.interviews[id := db2.interviews[id].(status := AwaitingCandidate, offerMode := Fixed)]
      && OffersExactly(w.value, id, walls, db.interviews[id].zone, db.interviews[id].durationMinutes)
      && OtherSlotsStay(db2, w.value, id)
  {
    hide BuildSlots, AnyClashes, OffersExactly, OtherSlotsStay;
    var i := db.interviews[id];
    var p := Read(db, Submit(id, user, walls), asked).value;
    var dropped := DropSlots(db2, SlotsOf(db2, id));
    AddedSlotsOffer(dropped, id, walls, i.zone, i.durationMinutes);
    DroppedOwn(db2, id, AddSlots(dropped, id, p.ranges));
    SlotsAgree(AddSlots(dropped, id, p.ranges), WriteOffer(db2, id, p.ranges), db2, id, walls, i.zone, i.durationMinutes);
  }

  lemma DroppedOwn(db: Db, id: nat, db': Db)
    requires OtherSlotsStay(DropSlots(db, SlotsOf(db, id)), db', id)
    ensures OtherSlotsStay(db, db', id)
  {
  }

  lemma SlotsAgree(a: Db, b: Db, before: Db, id: nat, walls: seq<string>, z: Zone, minutes: nat)
    requires a.slots == b.slots && OffersExactly(a, id, walls, z, minutes) && OtherSlotsStay(before, a, id)
    ensures OffersExactly(b, id, walls, z, minutes) && OtherSlotsStay(before, b, id)
  {
    assert forall range :: RowsFor(a, id, range) == RowsFor(b, id, range);
  }

  /** Sharing a live calendar: when it is refused, why, and what it changes. */
  lemma ShareIsExact(db: Db, id: nat, user: nat, hasRules: bool, now: int)
    ensures var r := Perform(db, Share(id, user, hasRules), now);
      if id !in db.interviews then r == Err(NotFound)
      else
        var i := db.interviews[id];
        if i.interviewer != Some(user) then r == Err(Forbidden)
        else if i.status != AwaitingManager || !hasRules then r == Err(BadRequest)
        else r == Ok(db.(interviews := db.interviews[id := i.(status := AwaitingCandidate, offerMode := Live)]))
  {
  }

  /** Cancelling: when it is refused, why, and what it changes. */
  lemma CancelIsExact(db: Db, id: nat, now: int)
    ensures var r := Perform(db, Cancel(id), now);
      if id !in db.interviews then r == Err(NotFound)
      else
        var i := db.interviews[id];
        if i.status == Cancelled || i.status == Scheduled then r == Err(BadRequest)
        else r == Ok(db.(interviews := db.interviews[id := i.(status := Cancelled)]))
  {
  }

  /** The bookings that a grid avoids: the confirmed times of the interviewer, each for its interview's minutes. */
  lemma BookedRangesAreExact(db: Db, user: nat, range: TimeRange)
    ensures range in BookedRanges(db, user) <==> exists j :: j in db.interviews && IsConfirmedFor(db.interviews[j], user, range)
  {
  }

  predicate IsConfirmedFor(i: Interview, user: nat, range: TimeRange) {
    && i.interviewer == Some(user) && i.status == Scheduled && i.scheduledAt == Some(range.startsAt)
    && range.endsAt == range.startsAt + i.durationMinutes * 60_000
  }

  // ---------------------------------------------------------------------------
  // Choosing a time
  // ---------------------------------------------------------------------------

  /** The grid that a LIVE booking is checked against: 60 days, every 5 minutes. */
  function LiveGrid(i: Interview, now: int): Options {
    Options(i.zone, i.durationMinutes, 60, 5, now)
  }

  /** `x` is offered under wall time `start`. */
  ghost predicate OfferedAs(r: Request, i: Interview, now: int, start: string, x: Candidate)
    requires r.Book?
  {
    Offered(r.schedule, r.booked, LiveGrid(i, now), x) && x.start == start
  }

  /** And no earlier slot is. */
  ghost predicate FirstAs(r: Request, i: Interview, now: int, start: string, x: Candidate)
    requires r.Book?
  {
    OfferedAs(r, i, now, start, x) && forall y :: OfferedAs(r, i, now, start, y) ==> x.startUtc <= y.startUtc
  }

  /**
   * A FIXED booking claims exactly the slot it names, and is accepted exactly if
   * that is a slot of the open interview and still ahead.
   */
  lemma FixedChoiceIsExact(db: Db, r: Request, now: int)
    requires r.Book? && r.id in db.interviews && db.interviews[r.id].offerMode == Fixed
    ensures var read := Read(db, r, now);
      var i := db.interviews[r.id];
      if i.status == AwaitingCandidate && r.slotId.Some? && r.slotId.value in db.slots
        && db.slots[r.slotId.value].interview == r.id && db.slots[r.slotId.value].range.startsAt > now
      then read == Ok(ClaimFixed(r.id, i.interviewer, r.slotId.value, db.slots[r.slotId.value].range))
      else read == Err(BadRequest)
  {
    hide FindStart, SlotGrid;
  }

  lemma LiveHit(db: Db, r: Request, now: int)
    requires r.Book? && r.id in db.interviews && r.start.Some? && GridInput(r.schedule, LiveGrid(db.interviews[r.id], now))
    ensures var i := db.interviews[r.id];
      var hit := FindStart(SlotGrid(r.schedule, r.booked, LiveGrid(i, now)), r.start.value);
      && (hit.Some? <==> exists x :: OfferedAs(r, i, now, r.start.value, x))
      && (hit.Some? ==> FirstAs(r, i, now, r.start.value, hit.value) && hit.value.endUtc == hit.value.startUtc + i.durationMinutes * 60_000)
  {
    hide FindStart, SlotGrid, Flatten, Offered, GridInput, Partitioned, UtcToZonedWallTime;
    var i := db.interviews[r.id];
    var o, start := LiveGrid(i, now), r.start.value;
    var grid := SlotGrid(r.schedule, r.booked, o);
    forall x ensures x in Flatten(grid) <==> Offered(r.schedule, r.booked, o, x) {
      GridIsExact(r.schedule, r.booked, o, x);
    }
    FoundInGrid(grid, start);
    GridIsPartitioned(r.schedule, r.booked, o);
    forall y | y in Flatten(grid) ensures y == Candidate(UtcToZonedWallTime(y.startUtc, o.interviewZone), y.startUtc, y.startUtc + o.duration * MS_PER_MINUTE) {
      SlotIsItsStart(r.schedule, r.booked, o, y);
    }
    FirstInGrid(grid, o.interviewZone, start);
    var hit := FindStart(grid, start);
    if hit.Some? { assert OfferedAs(r, i, now, start, hit.value); }
  }

  /**
   * A LIVE booking claims the earliest offered slot whose wall time is the one asked
   * for; it meets the conflict error exactly if none is offered under that time.
   */
  lemma LiveChoiceIsExact(db: Db, r: Request, now: int)
    requires r.Book? && r.id in db.interviews && db.interviews[r.id].offerMode == Live
    requires GridInput(r.schedule, LiveGrid(db.interviews[r.id], now))
    ensures var read := Read(db, r, now);
      var i := db.interviews[r.id];
      if i.status != AwaitingCandidate || r.start.None? || r.start.value == "" || i.interviewer.None? then read == Err(BadRequest)
      else if forall x :: !OfferedAs(r, i, now, r.start.value, x) then read == Err(Conflict)
      else exists x :: (FirstAs(r, i, now, r.start.value, x)
        && read == Ok(ClaimLive(r.id, i.interviewer, TimeRange(x.startUtc, x.startUtc + i.durationMinutes * 60_000))))
  {
    hide FindStart, SlotGrid, Offered, GridInput;
    var i := db.interviews[r.id];
    if i.status == AwaitingCandidate && r.start.Some? && r.start.value != "" && i.interviewer.Some? {
      LiveHit(db, r, now);
      assert LiveOptions(i, now) == LiveGrid(i, now);
      var hit := FindStart(SlotGrid(r.schedule, r.booked, LiveGrid(i, now)), r.start.value);
      if hit.Some? {
        assert FirstAs(r, i, now, r.start.value, hit.value);
        assert Read(db, r, now) == Ok(ClaimLive(r.id, i.interviewer, TimeRange(hit.value.startUtc, hit.value.startUtc + i.durationMinutes * 60_000)));
      }
    }
  }

  lemma UnknownIsNotFound(db: Db, r: Request, now: int)
    requires r.Book? && r.id !in db.interviews
    ensures Read(db, r, now) == Err(NotFound)
  {
  }

  // ---------------------------------------------------------------------------
  // The booking transaction
  // ---------------------------------------------------------------------------

  ghost predicate IsClaimOn(db: Db, p: Plan) {
    (p.ClaimFixed? || p.ClaimLive?) && p.id in db.interviews
  }

  /** When a claim commits, and what it makes of its interview. */
  lemma CommitIsExact(db: Db, p: Plan, now: int)
    requires IsClaimOn(db, p)
    ensures var c := Commit(db, p, now);
      if db.interviews[p.id].status == AwaitingCandidate && (p.interviewer.Some? ==> !Taken(db, p.interviewer.value, Some(p.id), p.range))
      then c.Ok? && p.id in c.value.interviews && c.value.interviews[p.id] == db.interviews[p.id].(status := Scheduled,
          scheduledSlot := Some(if p.ClaimFixed? then p.slotId else db.nextSlot), scheduledAt := Some(p.range.startsAt))
        && (p.ClaimLive? ==> db.nextSlot in c.value.slots && c.value.slots[db.nextSlot] == Slot(p.id, p.range))
      else c == Err(Conflict)
  {
    hide Clashes, Taken, RangesOverlap, HasFutureSlot;
    var claimed := Claim(db, p);
    if p.interviewer.Some? {
      var user := p.interviewer.value;
      ClashIsTaken(claimed, user, Some(p.id), p.range);
      TakenByOthers(db, claimed, user, p.id, p.range);
      CommitKeepsOwn(claimed, user, p.id, p.range, now);
    }
  }

  lemma TakenByOthers(db: Db, db': Db, user: nat, id: nat, range: TimeRange)
    requires db'.interviews.Keys == db.interviews.Keys && forall j :: j in db.interviews && j != id ==> db'.interviews[j] == db.interviews[j]
    ensures Taken(db', user, Some(id), range) <==> Taken(db, user, Some(id), range)
  {
    hide Occupies;
  }

  lemma CommitKeepsOwn(db: Db, user: nat, id: nat, range: TimeRange, now: int)
    requires id in db.interviews
    ensures var db' := Prune(db, user, id, range, now);
      && id in db'.interviews && db'.interviews[id] == db.interviews[id]
      && (forall s :: s in db.slots && db.slots[s].interview == id ==> s in db'.slots && db'.slots[s] == db.slots[s])
  {
    hide RangesOverlap, HasFutureSlot;
  }

  /** `i` is confirmed for the slot, or the wall time, that `r` asked for in `db`. */
  ghost predicate IsConfirmedAsAsked(db: Db, r: Request, asked: int, i: Interview)
    requires r.Book? && r.id in db.interviews
  {
    && i.status == Scheduled && i.scheduledAt.Some?
    && if db.interviews[r.id].offerMode == Fixed then
         r.slotId.Some? && r.slotId.value in db.slots && i.scheduledAt.value == db.slots[r.slotId.value].range.startsAt && i.scheduledSlot == r.slotId
       else r.start.Some? && exists x :: FirstAs(r, db.interviews[r.id], asked, r.start.value, x) && i.scheduledAt.value == x.startUtc
  }

  /**
   * However long the transaction waits, a booking that commits is confirmed for the
   * time that was asked for: that of the named slot, or that of the earliest slot
   * offered under the wall time.
   */
  lemma AskedTimeIsConfirmed(db: Db, r: Request, asked: int, db2: Db, now: int)
    requires r.Book? && Read(db, r, asked).Ok? && r.id in db.interviews && r.id in db2.interviews
    requires GridInput(r.schedule, LiveGrid(db.interviews[r.id], asked))
    ensures IsClaimOn(db2, Read(db, r, asked).value)
    ensures var c := Commit(db2, Read(db, r, asked).value, now);
      c.Ok? ==> r.id in c.value.interviews && IsConfirmedAsAsked(db, r, asked, c.value.interviews[r.id])
  {
    hide Read, Commit, GridInput, Offered, Taken;
    if db.interviews[r.id].offerMode == Fixed { FixedChoiceIsExact(db, r, asked); } else { LiveChoiceIsExact(db, r, asked); }
    CommitIsExact(db2, Read(db, r, asked).value, now);
  }
}
