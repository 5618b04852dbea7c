// The booking protocol with every read and its write interleaved freely: no double booking.
module BookingSafety {
  import opened Wrappers
  import opened Zones
  import opened SlotConflicts
  import opened SlotEngine
  import opened GridFacts
  import opened Interviews

  // ---------------------------------------------------------------------------
  // The transition systems
  // ---------------------------------------------------------------------------

  /** The database and the plans of requests that have read but not yet written. */
  datatype Sys = Sys(db: Db, pending: multiset<Plan>)

  datatype Action = Begin(request: Request, now: int) | Finish(plan: Plan, now: int) | Do(atomic: Request, now: int)

  const INITIAL := Sys(EMPTY, multiset{})

  function Outcome(db: Db, r: Result<Db, Failure>): Db {
    if r.Ok? then r.value else db
  }

  ghost predicate Begins(s: Sys, r: Request, now: int, s': Sys) {
    Read(s.db, r, now).Ok? && s' == Sys(s.db, s.pending + multiset{Read(s.db, r, now).value})
  }

  ghost predicate Finishes(s: Sys, p: Plan, now: int, s': Sys) {
    p in s.pending && s' == Sys(Outcome(s.db, Write(s.db, p, now)), s.pending - multiset{p})
  }

  /** Every request reads in one step and writes in a later one. */
  ghost predicate RacyStep(s: Sys, a: Action, s': Sys) {
    match a
    case Begin(r, now) => Begins(s, r, now, s')
    case Finish(p, now) => Finishes(s, p, now, s')
    case Do(_, _) => false
  }

  /** Only a booking reads and writes in two steps; every other request is one step. */
  ghost predicate AtomicStep(s: Sys, a: Action, s': Sys) {
    match a
    case Begin(r, now) => r.Book? && Begins(s, r, now, s')
    case Finish(p, now) => Finishes(s, p, now, s')
    case Do(r, now) => !r.Book? && s' == s.(db := Outcome(s.db, Perform(s.db, r, now)))
  }

  ghost predicate RacyNext(s: Sys, s': Sys) {
    exists a :: RacyStep(s, a, s')
  }

  ghost predicate AtomicNext(s: Sys, s': Sys) {
    exists a :: AtomicStep(s, a, s')
  }

  ghost predicate IsRun(run: seq<Sys>, next: (Sys, Sys) -> bool)
    decreases |run|
  {
    && run != []
    && if |run| == 1 then run[0] == INITIAL
       else IsRun(run[..|run| - 1], next) && next(run[|run| - 2], run[|run| - 1])
  }

  /** An atomic request is a read and its write with nothing in between. */
  lemma AtomicIsRacy(s: Sys, a: Action, s': Sys) returns (mid: Sys)
    requires AtomicStep(s, a, s')
    ensures s' == s || (exists b :: RacyStep(s, b, s')) ||
      (exists b, c :: RacyStep(s, b, mid) && RacyStep(mid, c, s'))
  {
    hide Read, Write;
    mid := s;
    match a
    case Begin(r, now) => assert RacyStep(s, Begin(r, now), s');
    case Finish(p, now) => assert RacyStep(s, Finish(p, now), s');
    case Do(r, now) =>
      if Read(s.db, r, now).Ok? {
        var p := Read(s.db, r, now).value;
        mid := Sys(s.db, s.pending + multiset{p});
        assert mid.pending - multiset{p} == s.pending;
        assert RacyStep(s, Begin(r, now), mid) && RacyStep(mid, Finish(p, now), s');
      }
  }

  lemma RacyExtends(run: seq<Sys>, a: Action, s: Sys) returns (longer: seq<Sys>)
    requires IsRun(run, RacyNext) && RacyStep(run[|run| - 1], a, s)
    ensures longer == run + [s] && IsRun(longer, RacyNext)
  {
    hide RacyStep;
    longer := run + [s];
    assert longer[..|longer| - 1] == run;
    assert RacyNext(run[|run| - 1], s);
  }

  /** Every state of an atomic run occurs in some racy run, so what holds in all racy runs holds in all atomic ones. */
  lemma {:induction false} AtomicRunIsRacy(run: seq<Sys>) returns (racy: seq<Sys>)
    requires IsRun(run, AtomicNext)
    ensures IsRun(racy, RacyNext) && racy[|racy| - 1] == run[|run| - 1]
    ensures forall k :: 0 <= k < |run| ==> run[k] in racy
    decreases |run|
  {
    hide RacyStep, AtomicStep;
    if |run| == 1 {
      racy := run;
    } else {
      var init, s, s' := run[..|run| - 1], run[|run| - 2], run[|run| - 1];
      racy := AtomicRunIsRacy(init);
      var before := racy;
      assert AtomicNext(s, s');
      var a :| AtomicStep(s, a, s');
      var mid := AtomicIsRacy(s, a, s');
      if s' != s {
        if b :| RacyStep(s, b, s') {
          racy := RacyExtends(racy, b, s');
        } else {
          var b, c :| RacyStep(s, b, mid) && RacyStep(mid, c, s');
          racy := RacyExtends(racy, b, mid);
          racy := RacyExtends(racy, c, s');
        }
      }
      forall k | 0 <= k < |run| ensures run[k] in racy {
        if k < |run| - 1 { assert init[k] == run[k] && run[k] in before; }
      }
    }
  }

  // ---------------------------------------------------------------------------
  // The invariant of every interleaving
  // ---------------------------------------------------------------------------

  predicate Lasts(r: TimeRange, durationMinutes: nat) {
    r == RangeFrom(r.startsAt, durationMinutes)
  }

  ghost predicate SlotFits(db: Db, s: nat)
    requires s in db.slots
  {
    var id := db.slots[s].interview;
    s < db.nextSlot && id in db.interviews && Lasts(db.slots[s].range, db.interviews[id].durationMinutes)
  }

  /** Rows refer to rows, identifiers are not reused, and every slot lasts as long as its interview. */
  ghost predicate WellFormed(db: Db) {
    && (forall id :: id in db.interviews ==> id < db.nextInterview)
    && (forall id :: id in db.interviews && db.interviews[id].status == Scheduled ==> db.interviews[id].scheduledAt.Some?)
    && (forall s :: s in db.slots ==> SlotFits(db, s))
  }

  ghost predicate AllLast(ranges: seq<TimeRange>, durationMinutes: nat) {
    forall i :: 0 <= i < |ranges| ==> Lasts(ranges[i], durationMinutes)
  }

  /** What a plan still has right about the database, however long ago it was read. */
  ghost predicate PlanHolds(db: Db, p: Plan) {
    && Names(db, p)
    && match p
       case Insert(row, ranges) => row.status != Scheduled && AllLast(ranges, row.durationMinutes)
       case Offer(id, ranges) => AllLast(ranges, db.interviews[id].durationMinutes)
       case ClaimFixed(id, interviewer, slotId, range) =>
         interviewer == db.interviews[id].interviewer && Lasts(range, db.interviews[id].durationMinutes) && slotId < db.nextSlot
       case ClaimLive(id, interviewer, range) =>
         interviewer == db.interviews[id].interviewer && Lasts(range, db.interviews[id].durationMinutes)
       case _ => true
  }

  /** No two confirmed interviews of one interviewer overlap. */
  ghost predicate NoDoubleBooking(db: Db) {
    forall i, j, user :: i in db.interviews && j in db.interviews && i != j
      && IsBooking(db.interviews[i], user) && IsBooking(db.interviews[j], user)
      ==> !RangesOverlap(Busy(db.interviews[i]), Busy(db.interviews[j]))
  }

  ghost predicate Safe(s: Sys) {
    WellFormed(s.db) && NoDoubleBooking(s.db) && forall p :: p in s.pending ==> PlanHolds(s.db, p)
  }

  /** Rows stay, and keep their interviewer and duration. */
  ghost predicate Extends(db: Db, db': Db) {
    && db.nextSlot <= db'.nextSlot
    && forall id :: id in db.interviews ==> (
         && id in db'.interviews
         && db'.interviews[id].interviewer == db.interviews[id].interviewer
         && db'.interviews[id].durationMinutes == db.interviews[id].durationMinutes)
  }

  lemma PlansPersist(db: Db, db': Db, p: Plan)
    requires Extends(db, db') && PlanHolds(db, p)
    ensures PlanHolds(db', p)
  {
  }

  // ---------------------------------------------------------------------------
  // Reads establish their plans
  // ---------------------------------------------------------------------------

  lemma BuiltSlotsLast(walls: seq<string>, z: Zone, durationMinutes: nat)
    ensures var slots := BuildSlots(walls, z, durationMinutes);
      slots.Some? ==> AllLast(slots.value, durationMinutes) && (walls != [] ==> slots.value != [])
  {
    if walls != [] {
      assert Unique(walls) != [] by { UniqueKeepsLast(walls); }
    }
  }

  lemma UniqueKeepsLast(walls: seq<string>)
    requires walls != []
    ensures walls[|walls| - 1] in Unique(walls)
  {
    UniqueMembers(walls[..|walls| - 1]);
  }

  lemma {:induction false} UniqueMembers(walls: seq<string>)
    ensures forall w :: w in Unique(walls) <==> w in walls
    decreases |walls|
  {
    if walls != [] {
      var init, last := walls[..|walls| - 1], walls[|walls| - 1];
      UniqueMembers(init);
      assert walls == init + [last];
    }
  }

  lemma {:induction false} FoundInDay(slots: seq<Candidate>, start: string)
    ensures var hit := FindInDay(slots, start);
      if hit.Some? then hit.value in slots && hit.value.start == start else forall x :: x in slots ==> x.start != start
    decreases |slots|
  {
    if slots != [] && slots[0].start != start {
      FoundInDay(slots[1..], start);
      assert slots == [slots[0]] + slots[1..];
    }
  }

  /** The search finds a slot of the grid with that wall time exactly when there is one. */
  lemma {:induction false} FoundInGrid(grid: seq<GridDay>, start: string)
    ensures var hit := FindStart(grid, start);
      if hit.Some? then hit.value in Flatten(grid) && hit.value.start == start
      else forall x :: x in Flatten(grid) ==> x.start != start
    decreases |grid|
  {
    if grid != [] {
      FoundInDay(grid[0].slots, start);
      FoundInGrid(grid[1..], start);
    }
  }

  lemma LiveSlotLasts(i: Interview, s: Schedule, booked: seq<TimeRange>, start: string, now: int)
    ensures var hit := FindStart(SlotGrid(s, booked, LiveOptions(i, now)), start);
      hit.Some? ==> Lasts(RangeOf(hit.value), i.durationMinutes) && !OverlapsAny(RangeOf(hit.value), booked)
  {
    hide SlotGrid, FindStart, OverlapsAny;
    var o := LiveOptions(i, now);
    var grid := SlotGrid(s, booked, o);
    FoundInGrid(grid, start);
    if hit: Candidate :| FindStart(grid, start) == Some(hit) {
      GridSlotsAreOpen(s, booked, o, hit);
    }
  }

  lemma ReadHolds(db: Db, r: Request, now: int)
    requires WellFormed(db) && Read(db, r, now).Ok?
    ensures PlanHolds(db, Read(db, r, now).value)
  {
    hide BuildSlots, SlotGrid, FindStart, AnyClashes, HasFutureSlot;
    match r
    case Create(_, _, durationMinutes, zone, walls) => BuiltSlotsLast(walls, zone, durationMinutes);
    case Submit(id, _, walls) =>
      BuiltSlotsLast(walls, db.interviews[id].zone, db.interviews[id].durationMinutes);
    case Book(id, _, start, schedule, booked) =>
      if db.interviews[id].offerMode == Live {
        LiveSlotLasts(db.interviews[id], schedule, booked, start.value, now);
      }
    case _ =>
  }

  // ---------------------------------------------------------------------------
  // Writes keep the invariant, whatever happened since the read
  // ---------------------------------------------------------------------------

  /** Every confirmed interview was confirmed before, unchanged. */
  ghost predicate NoNewBooking(db: Db, db': Db) {
    forall id :: id in db'.interviews && db'.interviews[id].status == Scheduled
      ==> id in db.interviews && db'.interviews[id] == db.interviews[id]
  }

  lemma NoNewBookingIsSafe(db: Db, db': Db)
    requires NoDoubleBooking(db) && NoNewBooking(db, db')
    ensures NoDoubleBooking(db')
  {
    hide RangesOverlap;
  }

  lemma PlainWriteKeepsRows(db: Db, p: Plan, now: int)
    requires WellFormed(db) && PlanHolds(db, p) && !p.ClaimFixed? && !p.ClaimLive?
    ensures var db' := Outcome(db, Write(db, p, now));
      Extends(db, db') && WellFormed(db') && NoNewBooking(db, db')
  {
    hide Commit;
    match p
    case Insert(row, ranges) => InsertKeepsRows(db, row, ranges);
    case Offer(id, ranges) => OfferKeepsRows(db, id, ranges);
    case _ =>
  }

  lemma InsertKeepsRows(db: Db, row: Interview, ranges: seq<TimeRange>)
    requires WellFormed(db) && row.status != Scheduled && AllLast(ranges, row.durationMinutes)
    ensures var db' := WriteInsert(db, row, ranges);
      Extends(db, db') && WellFormed(db') && NoNewBooking(db, db')
  {
    hide Lasts;
  }

  lemma OfferKeepsRows(db: Db, id: nat, ranges: seq<TimeRange>)
    requires WellFormed(db) && id in db.interviews && AllLast(ranges, db.interviews[id].durationMinutes)
    ensures var db' := WriteOffer(db, id, ranges);
      Extends(db, db') && WellFormed(db') && NoNewBooking(db, db')
  {
    hide Lasts;
  }

  /** The claim with its in-transaction check, before siblings are pruned. */
  lemma ClaimIsSafe(db: Db, p: Plan)
    requires WellFormed(db) && NoDoubleBooking(db) && PlanHolds(db, p) && (p.ClaimFixed? || p.ClaimLive?)
    requires p.interviewer.Some? ==> !Clashes(Claim(db, p), p.interviewer.value, Some(p.id), p.range)
    ensures Extends(db, Claim(db, p)) && WellFormed(Claim(db, p)) && NoDoubleBooking(Claim(db, p))
  {
    var claimed := Claim(db, p);
    assert Busy(claimed.interviews[p.id]) == p.range;
    forall j, user | j in claimed.interviews && j != p.id
      && IsBooking(claimed.interviews[p.id], user) && IsBooking(claimed.interviews[j], user)
      ensures !RangesOverlap(Busy(claimed.interviews[p.id]), Busy(claimed.interviews[j]))
    {
      assert user == p.interviewer.value;
    }
  }

  lemma PruneIsSafe(db: Db, user: nat, id: nat, range: TimeRange, now: int)
    requires WellFormed(db) && NoDoubleBooking(db)
    ensures var db' := Prune(db, user, id, range, now);
      Extends(db, db') && WellFormed(db') && NoDoubleBooking(db')
  {
    hide RangesOverlap, HasFutureSlot, SiblingSlots;
  }

  lemma WriteIsSafe(db: Db, p: Plan, now: int)
    requires WellFormed(db) && NoDoubleBooking(db) && PlanHolds(db, p)
    ensures var db' := Outcome(db, Write(db, p, now));
      Extends(db, db') && WellFormed(db') && NoDoubleBooking(db')
  {
    hide WellFormed, NoDoubleBooking, Prune, Claim, Clashes;
    if p.ClaimFixed? || p.ClaimLive? {
      if Commit(db, p, now).Ok? {
        ClaimIsSafe(db, p);
        if p.interviewer.Some? { PruneIsSafe(Claim(db, p), p.interviewer.value, p.id, p.range, now); }
      }
    } else {
      PlainWriteKeepsRows(db, p, now);
      NoNewBookingIsSafe(db, Outcome(db, Write(db, p, now)));
    }
  }

  lemma StepIsSafe(s: Sys, a: Action, s': Sys)
    requires Safe(s) && RacyStep(s, a, s')
    ensures Safe(s')
  {
    hide Read, Write, PlanHolds, WellFormed, NoDoubleBooking, Extends;
    match a
    case Begin(r, now) => ReadHolds(s.db, r, now);
    case Finish(p, now) =>
      WriteIsSafe(s.db, p, now);
      forall q | q in s'.pending ensures PlanHolds(s'.db, q) {
        assert q in s.pending;
        PlansPersist(s.db, s'.db, q);
      }
    case Do(_, _) => assert false;
  }

  lemma {:induction false} RunIsSafe(run: seq<Sys>)
    requires IsRun(run, RacyNext)
    ensures Safe(run[|run| - 1])
    decreases |run|
  {
    hide RacyStep;
    if |run| > 1 {
      RunIsSafe(run[..|run| - 1]);
      var s, s' := run[|run| - 2], run[|run| - 1];
      assert RacyNext(s, s');
      var a :| RacyStep(s, a, s');
      StepIsSafe(s, a, s');
    }
  }

  /**
   * In every run in which reads, checks and writes of all requests interleave
   * freely, no state has two confirmed interviews of one interviewer that overlap.
   */
  lemma {:induction false} NeverDoubleBooked(run: seq<Sys>, k: nat)
    requires IsRun(run, RacyNext) && k < |run|
    ensures NoDoubleBooking(run[k].db)
    decreases |run|
  {
    hide RacyNext;
    if k == |run| - 1 {
      RunIsSafe(run);
    } else {
      NeverDoubleBooked(run[..|run| - 1], k);
    }
  }
}
