// The booking protocol when every request but a booking checks and writes in one step.
module BookingLife {
  import opened Wrappers
  import opened SlotConflicts
  import opened SlotEngine
  import opened Interviews
  import opened BookingSafety

  // ---------------------------------------------------------------------------
  // The invariant
  // ---------------------------------------------------------------------------

  ghost predicate HasNoSlot(db: Db, id: nat) {
    forall s :: s in db.slots ==> db.slots[s].interview != id
  }

  ghost predicate HasSlot(db: Db, id: nat) {
    exists s :: s in db.slots && db.slots[s].interview == id
  }

  /** The confirmed slot is a row of the interview with exactly the confirmed time. */
  ghost predicate HoldsItsSlot(db: Db, id: nat)
    requires id in db.interviews
  {
    var i := db.interviews[id];
    i.scheduledAt.Some? && i.scheduledSlot.Some? && i.scheduledSlot.value in db.slots
      && db.slots[i.scheduledSlot.value] == Slot(id, Busy(i))
  }

  /** The slots an interview has, by its status and offer mode. */
  ghost predicate ShapeOf(db: Db, id: nat)
    requires id in db.interviews
  {
    var i := db.interviews[id];
    match i.status
    case AwaitingManager => HasNoSlot(db, id)
    case AwaitingCandidate => if i.offerMode == Fixed then HasSlot(db, id) else HasNoSlot(db, id) && i.interviewer.Some?
    case Scheduled => HoldsItsSlot(db, id)
      && (i.offerMode == Live ==> forall s :: s in db.slots && db.slots[s].interview == id ==> s == i.scheduledSlot.value)
    case _ => true
  }

  ghost predicate Shaped(db: Db) {
    forall id :: id in db.interviews ==> ShapeOf(db, id)
  }

  /** `s` can be booked: no confirmed interview of its interviewer overlaps it. */
  ghost predicate Bookable(db: Db, s: nat)
    requires s in db.slots && db.slots[s].interview in db.interviews
  {
    var i := db.interviews[db.slots[s].interview];
    i.interviewer.Some? ==>
      forall j :: (j in db.interviews && IsBooking(db.interviews[j], i.interviewer.value)
        ==> !RangesOverlap(db.slots[s].range, Busy(db.interviews[j])))
  }

  predicate IsOffered(db: Db, s: nat) {
    && s in db.slots && db.slots[s].interview in db.interviews
    && db.interviews[db.slots[s].interview].status == AwaitingCandidate
  }

  /** Every slot of an open offer can be booked. */
  ghost predicate OffersBookable(db: Db) {
    forall s :: IsOffered(db, s) ==> Bookable(db, s)
  }

  /** The slot row of a FIXED claim still stands. */
  ghost predicate RowStands(db: Db, id: nat, slotId: nat, range: TimeRange) {
    slotId in db.slots && db.slots[slotId] == Slot(id, range)
  }

  /**
   * A claim read some time ago: its interview has not gone back, and while it can
   * still be claimed either the row it chose stands or the time is taken.
   */
  ghost predicate ClaimHolds(db: Db, p: Plan) {
    match p
    case ClaimFixed(id, interviewer, slotId, range) =>
      && id in db.interviews && db.interviews[id].status != AwaitingManager
      && (db.interviews[id].status == AwaitingCandidate ==>
        && db.interviews[id].offerMode == Fixed
        && (RowStands(db, id, slotId, range) || (interviewer.Some? && Clashes(db, interviewer.value, Some(id), range))))
    case ClaimLive(id, interviewer, range) =>
      && id in db.interviews && db.interviews[id].status != AwaitingManager
      && (db.interviews[id].status == AwaitingCandidate ==> db.interviews[id].offerMode == Live)
    case _ => false
  }

  ghost predicate DbOrderly(db: Db) {
    WellFormed(db) && NoDoubleBooking(db) && Shaped(db) && OffersBookable(db)
  }

  ghost predicate Orderly(s: Sys) {
    DbOrderly(s.db) && forall p :: p in s.pending ==> PlanHolds(s.db, p) && ClaimHolds(s.db, p)
  }

  // ---------------------------------------------------------------------------
  // How one interview may change
  // ---------------------------------------------------------------------------

  function Rank(s: Status): nat {
    match s
    case AwaitingManager => 3
    case AwaitingCandidate => 2
    case Expired => 1
    case Scheduled => 0
    case Cancelled => 0
  }

  /** Either nothing changes, or the status moves strictly down its rank. */
  ghost predicate Moves(i: Interview, i': Interview) {
    && i'.interviewer == i.interviewer && i'.durationMinutes == i.durationMinutes
    && (i' == i || Rank(i'.status) < Rank(i.status))
    && (i.status == Expired ==> i'.status in {Expired, Cancelled})
    && (i.status != AwaitingManager ==> i'.offerMode == i.offerMode)
  }

  /** One step of the database: rows move, and the slots of open offers stand or are taken. */
  ghost predicate Evolves(db: Db, db': Db) {
    && db.nextSlot <= db'.nextSlot
    && (forall id :: id in db.interviews ==> id in db'.interviews && Moves(db.interviews[id], db'.interviews[id]))
    && (forall s :: s in db.slots && db.slots[s].interview in db.interviews ==> SlotEvolves(db, db', s))
  }

  ghost predicate SlotEvolves(db: Db, db': Db, s: nat)
    requires s in db.slots && db.slots[s].interview in db.interviews
  {
    var id := db.slots[s].interview;
    var user := db.interviews[id].interviewer;
    id in db'.interviews && db.interviews[id].status == db'.interviews[id].status == AwaitingCandidate ==>
      RowStands(db', id, s, db.slots[s].range) || (user.Some? && Clashes(db', user.value, Some(id), db.slots[s].range))
  }

  lemma ClashesPersist(db: Db, db': Db, user: nat, except: Option<nat>, range: TimeRange)
    requires Evolves(db, db') && Clashes(db, user, except, range)
    ensures Clashes(db', user, except, range)
  {
    hide RangesOverlap;
    var id :| id in db.interviews && except != Some(id) && IsBooking(db.interviews[id], user)
      && RangesOverlap(range, Busy(db.interviews[id]));
    assert db'.interviews[id] == db.interviews[id];
  }

  lemma ClaimsPersist(db: Db, db': Db, p: Plan)
    requires Evolves(db, db') && WellFormed(db) && PlanHolds(db, p) && ClaimHolds(db, p)
    ensures ClaimHolds(db', p)
  {
    hide RangesOverlap, Clashes;
    match p
    case ClaimFixed(id, interviewer, slotId, range) =>
      if db'.interviews[id].status == AwaitingCandidate {
        if RowStands(db, id, slotId, range) {
          assert SlotEvolves(db, db', slotId);
        } else {
          ClashesPersist(db, db', interviewer.value, Some(id), range);
        }
      }
    case ClaimLive(_, _, _) =>
    case _ =>
  }

  // ---------------------------------------------------------------------------
  // Requests in one step
  // ---------------------------------------------------------------------------

  lemma NoneClashes(db: Db, interviewer: Option<nat>, except: Option<nat>, ranges: seq<TimeRange>, k: nat, j: nat)
    requires !AnyClashes(db, interviewer, except, ranges) && interviewer.Some? && k < |ranges|
    requires j in db.interviews && except != Some(j) && IsBooking(db.interviews[j], interviewer.value)
    ensures !RangesOverlap(ranges[k], Busy(db.interviews[j]))
  {
  }

  lemma InsertIsOrderly(db: Db, row: Interview, ranges: seq<TimeRange>)
    requires DbOrderly(db) && row.status != Scheduled && AllLast(ranges, row.durationMinutes)
    requires !AnyClashes(db, row.interviewer, None, ranges)
    requires row.status == AwaitingManager ==> ranges == []
    requires row.status == AwaitingCandidate ==> row.offerMode == Fixed && ranges != []
    ensures DbOrderly(WriteInsert(db, row, ranges)) && Evolves(db, WriteInsert(db, row, ranges))
  {
    var db' := WriteInsert(db, row, ranges);
    InsertKeepsRows(db, row, ranges);
    NoNewBookingIsSafe(db, db');
    InsertKeepsShape(db, row, ranges);
    InsertEvolves(db, row, ranges);
    hide AnyClashes, Bookable, WriteInsert, Shaped, WellFormed, NoDoubleBooking, Evolves;
    forall s | IsOffered(db', s) ensures Bookable(db', s) {
      InsertedIsBookable(db, row, ranges, s);
    }
  }

  lemma InsertEvolves(db: Db, row: Interview, ranges: seq<TimeRange>)
    requires WellFormed(db)
    ensures Evolves(db, WriteInsert(db, row, ranges))
  {
    hide Lasts, Clashes;
  }

  lemma InsertKeepsShape(db: Db, row: Interview, ranges: seq<TimeRange>)
    requires WellFormed(db) && Shaped(db) && row.status != Scheduled
    requires row.status == AwaitingManager ==> ranges == []
    requires row.status == AwaitingCandidate ==> row.offerMode == Fixed && ranges != []
    ensures Shaped(WriteInsert(db, row, ranges))
  {
    hide Lasts;
    var db' := WriteInsert(db, row, ranges);
    var id := db.nextInterview;
    if ranges != [] { assert db'.slots[db.nextSlot].interview == id; }
    forall j | j in db'.interviews ensures ShapeOf(db', j) {
      if j != id { InsertKeepsShapeOf(db, row, ranges, j); }
    }
  }

  lemma InsertKeepsShapeOf(db: Db, row: Interview, ranges: seq<TimeRange>, j: nat)
    requires WellFormed(db) && j in db.interviews && ShapeOf(db, j)
    ensures ShapeOf(WriteInsert(db, row, ranges), j)
  {
    var db' := WriteInsert(db, row, ranges);
    assert db'.interviews[j] == db.interviews[j];
    SameSlots(db, db', j);
  }

  /** An interview with the same row and the same slots keeps its shape. */
  lemma SameSlots(db: Db, db': Db, j: nat)
    requires j in db.interviews && j in db'.interviews && db'.interviews[j] == db.interviews[j] && ShapeOf(db, j)
    requires forall s :: (s in db'.slots && db'.slots[s].interview == j) <==> (s in db.slots && db.slots[s].interview == j)
    requires forall s :: s in db.slots && db.slots[s].interview == j ==> s in db'.slots && db'.slots[s] == db.slots[s]
    ensures ShapeOf(db', j)
  {
  }

  lemma InsertedIsBookable(db: Db, row: Interview, ranges: seq<TimeRange>, s: nat)
    requires DbOrderly(db) && row.status != Scheduled && !AnyClashes(db, row.interviewer, None, ranges)
    requires IsOffered(WriteInsert(db, row, ranges), s)
    ensures Bookable(WriteInsert(db, row, ranges), s)
  {
    hide AnyClashes, RangesOverlap, Shaped, NoDoubleBooking;
    var db' := WriteInsert(db, row, ranges);
    var i := db'.interviews[db'.slots[s].interview];
    if i.interviewer.Some? {
      forall j | j in db'.interviews && IsBooking(db'.interviews[j], i.interviewer.value)
        ensures !RangesOverlap(db'.slots[s].range, Busy(db'.interviews[j]))
      {
        assert j != db.nextInterview && db'.interviews[j] == db.interviews[j];
        if s >= db.nextSlot {
          NoneClashes(db, row.interviewer, None, ranges, s - db.nextSlot, j);
        } else {
          assert IsOffered(db, s);
        }
      }
    }
  }

  lemma OfferIsOrderly(db: Db, id: nat, ranges: seq<TimeRange>)
    requires DbOrderly(db) && id in db.interviews && db.interviews[id].status == AwaitingManager
    requires AllLast(ranges, db.interviews[id].durationMinutes) && ranges != []
    requires !AnyClashes(db, db.interviews[id].interviewer, Some(id), ranges)
    ensures DbOrderly(WriteOffer(db, id, ranges)) && Evolves(db, WriteOffer(db, id, ranges))
  {
    var db' := WriteOffer(db, id, ranges);
    OfferKeepsRows(db, id, ranges);
    NoNewBookingIsSafe(db, db');
    OfferKeepsShape(db, id, ranges);
    OfferEvolves(db, id, ranges);
    hide AnyClashes, Bookable, WriteOffer, Shaped, WellFormed, NoDoubleBooking, Evolves;
    forall s | IsOffered(db', s) ensures Bookable(db', s) {
      OfferedIsBookable(db, id, ranges, s);
    }
  }

  lemma OfferEvolves(db: Db, id: nat, ranges: seq<TimeRange>)
    requires WellFormed(db) && id in db.interviews && db.interviews[id].status == AwaitingManager
    ensures Evolves(db, WriteOffer(db, id, ranges))
  {
    hide Lasts, Clashes;
  }

  lemma OfferKeepsShape(db: Db, id: nat, ranges: seq<TimeRange>)
    requires WellFormed(db) && Shaped(db) && id in db.interviews && ranges != []
    ensures Shaped(WriteOffer(db, id, ranges))
  {
    hide Lasts;
    var db' := WriteOffer(db, id, ranges);
    assert db'.slots[db.nextSlot].interview == id;
    forall j | j in db'.interviews ensures ShapeOf(db', j) {
      if j != id { OfferKeepsShapeOf(db, id, ranges, j); }
    }
  }

  lemma OfferKeepsShapeOf(db: Db, id: nat, ranges: seq<TimeRange>, j: nat)
    requires WellFormed(db) && id in db.interviews && j in db.interviews && j != id && ShapeOf(db, j)
    ensures ShapeOf(WriteOffer(db, id, ranges), j)
  {
    var db' := WriteOffer(db, id, ranges);
    assert db'.interviews[j] == db.interviews[j];
    SameSlots(db, db', j);
  }

  lemma OfferedIsBookable(db: Db, id: nat, ranges: seq<TimeRange>, s: nat)
    requires DbOrderly(db) && id in db.interviews && db.interviews[id].status == AwaitingManager
    requires !AnyClashes(db, db.interviews[id].interviewer, Some(id), ranges)
    requires IsOffered(WriteOffer(db, id, ranges), s)
    ensures Bookable(WriteOffer(db, id, ranges), s)
  {
    hide AnyClashes, RangesOverlap, Shaped, NoDoubleBooking;
    var db' := WriteOffer(db, id, ranges);
    var i := db'.interviews[db'.slots[s].interview];
    if i.interviewer.Some? {
      forall j | j in db'.interviews && IsBooking(db'.interviews[j], i.interviewer.value)
        ensures !RangesOverlap(db'.slots[s].range, Busy(db'.interviews[j]))
      {
        assert j != id && db'.interviews[j] == db.interviews[j];
        if s >= db.nextSlot {
          NoneClashes(db, db.interviews[id].interviewer, Some(id), ranges, s - db.nextSlot, j);
        } else {
          assert IsOffered(db, s);
        }
      }
    }
  }

  /** Status changes that neither confirm an interview nor touch a slot. */
  ghost predicate OnlyStatuses(db: Db, db': Db) {
    && db' == db.(interviews := db'.interviews) && db'.interviews.Keys == db.interviews.Keys
    && forall id :: id in db.interviews ==>
      && Moves(db.interviews[id], db'.interviews[id])
      && (db'.interviews[id] == db.interviews[id] || db'.interviews[id].status in {Expired, Cancelled}
        || (db.interviews[id].status == AwaitingManager && db'.interviews[id].status == AwaitingCandidate
          && db'.interviews[id].offerMode == Live && db.interviews[id].interviewer.Some?))
  }

  lemma StatusesAreOrderly(db: Db, db': Db)
    requires DbOrderly(db) && OnlyStatuses(db, db')
    ensures DbOrderly(db') && Evolves(db, db')
  {
    hide Lasts, RangesOverlap;
    NoNewBookingIsSafe(db, db');
    forall s | IsOffered(db', s) ensures Bookable(db', s) {
      var id := db.slots[s].interview;
      assert ShapeOf(db, id);
      assert IsOffered(db, s);
    }
    forall id | id in db'.interviews ensures ShapeOf(db', id) {
      assert ShapeOf(db, id);
    }
  }

  lemma CreateIsOrderly(db: Db, r: Request, now: int)
    requires DbOrderly(db) && r.Create? && Perform(db, r, now).Ok?
    ensures DbOrderly(Perform(db, r, now).value) && Evolves(db, Perform(db, r, now).value)
  {
    hide DbOrderly, Evolves, BuildSlots, AnyClashes, WriteInsert;
    BuiltSlotsLast(r.walls, r.zone, r.durationMinutes);
    var p := ReadCreate(db, r, now).value;
    assert AllLast([], p.row.durationMinutes);
    assert !AnyClashes(db, p.row.interviewer, None, []) by { NothingClashes(db, p.row.interviewer); }
    InsertIsOrderly(db, p.row, p.ranges);
  }

  lemma NothingClashes(db: Db, interviewer: Option<nat>)
    ensures !AnyClashes(db, interviewer, None, [])
  {
  }

  /** Every request but a booking keeps the invariant when it runs in one step. */
  lemma RequestIsOrderly(db: Db, r: Request, now: int)
    requires DbOrderly(db) && !r.Book?
    ensures var db' := Outcome(db, Perform(db, r, now)); DbOrderly(db') && Evolves(db, db')
  {
    var db' := Outcome(db, Perform(db, r, now));
    hide DbOrderly, Evolves, BuildSlots, AnyClashes, WriteInsert, WriteOffer, HasFutureSlot;
    if Perform(db, r, now).Err? {
      assert OnlyStatuses(db, db);
      StatusesAreOrderly(db, db);
    } else {
      match r
      case Create(_, _, _, _, _) => CreateIsOrderly(db, r, now);
      case Submit(id, user, walls) =>
        BuiltSlotsLast(walls, db.interviews[id].zone, db.interviews[id].durationMinutes);
        OfferIsOrderly(db, id, BuildSlots(walls, db.interviews[id].zone, db.interviews[id].durationMinutes).value);
      case Share(_, _, _) => StatusesAreOrderly(db, db');
      case Cancel(_) => StatusesAreOrderly(db, db');
      case ExpireStale(_, _) => StatusesAreOrderly(db, db');
    }
  }

  // ---------------------------------------------------------------------------
  // The booking transaction
  // ---------------------------------------------------------------------------

  lemma {:induction false} ClashesIgnoresTheClaim(db: Db, p: Plan, user: nat)
    requires (p.ClaimFixed? || p.ClaimLive?) && p.id in db.interviews
    ensures Clashes(Claim(db, p), user, Some(p.id), p.range) <==> Clashes(db, user, Some(p.id), p.range)
  {
    hide RangesOverlap;
    var claimed := Claim(db, p);
    assert forall j :: j in db.interviews && j != p.id ==> claimed.interviews[j] == db.interviews[j];
  }

  /**
   * Stale slot safety: a FIXED claim that commits, however old its snapshot,
   * points at a slot row that still stands, at the confirmed time.
   */
  lemma CommittedSlotStands(db: Db, p: Plan, now: int)
    requires DbOrderly(db) && PlanHolds(db, p) && ClaimHolds(db, p) && p.ClaimFixed? && Commit(db, p, now).Ok?
    ensures RowStands(db, p.id, p.slotId, p.range)
    ensures var db' := Commit(db, p, now).value;
      && RowStands(db', p.id, p.slotId, p.range)
      && db'.interviews[p.id].status == Scheduled && db'.interviews[p.id].scheduledSlot == Some(p.slotId)
      && db'.interviews[p.id].scheduledAt == Some(p.range.startsAt)
  {
    hide Clashes, DbOrderly, RangesOverlap, HasFutureSlot, PlanHolds;
    assert p.interviewer == db.interviews[p.id].interviewer by { InterviewerHolds(db, p); }
    if p.interviewer.Some? { ClashesIgnoresTheClaim(db, p, p.interviewer.value); }
  }

  lemma InterviewerHolds(db: Db, p: Plan)
    requires PlanHolds(db, p) && (p.ClaimFixed? || p.ClaimLive?)
    ensures p.id in db.interviews && p.interviewer == db.interviews[p.id].interviewer
    ensures Lasts(p.range, db.interviews[p.id].durationMinutes)
  {
  }

  predicate Meets(a: TimeRange, b: TimeRange) {
    a.startsAt < b.endsAt && b.startsAt < a.endsAt
  }

  lemma OverlapIsMeeting()
    ensures forall a, b :: RangesOverlap(a, b) <==> Meets(a, b)
  {
  }

  /** `id` has a slot that overlaps `range`. */
  predicate HasOverlap(db: Db, id: nat, range: TimeRange) {
    exists s :: s in db.slots && db.slots[s].interview == id && Meets(db.slots[s].range, range)
  }

  /** `id` has a slot that starts after `now`. */
  predicate KeepsFuture(db: Db, id: nat, now: int) {
    exists s :: s in db.slots && db.slots[s].interview == id && now < db.slots[s].range.startsAt
  }

  lemma FutureIsKept(db: Db, id: nat, now: int)
    ensures HasFutureSlot(db, id, now) <==> KeepsFuture(db, id, now)
  {
  }

  /** The exact effect of booking `range` with `user` on another interview and its slots. */
  ghost predicate SiblingEffect(db: Db, db': Db, user: Option<nat>, range: TimeRange, now: int, id: nat)
    requires id in db.interviews && id in db'.interviews
  {
    var i := db.interviews[id];
    var sibling := user.Some? && i.interviewer == user && i.status == AwaitingCandidate;
    && (forall s :: s in db'.slots && db'.slots[s].interview == id ==> s in db.slots && db'.slots[s] == db.slots[s])
    && (forall s :: s in db.slots && db.slots[s].interview == id ==> KeptUnlessPruned(db, db', sibling, range, s))
    && db'.interviews[id] ==
      if sibling && HasOverlap(db, id, range) && !KeepsFuture(db', id, now) then i.(status := Expired) else i
  }

  ghost predicate KeptUnlessPruned(db: Db, db': Db, sibling: bool, range: TimeRange, s: nat)
    requires s in db.slots
  {
    if sibling && Meets(db.slots[s].range, range) then s !in db'.slots
    else s in db'.slots && db'.slots[s] == db.slots[s]
  }

  /**
   * After a commit an open offer of the same interviewer has lost precisely its
   * slots that overlap the booked range, is expired exactly if it lost one and
   * keeps no future one, and everything else about it and others is unchanged.
   */
  lemma CommitEffectOnOthers(db: Db, p: Plan, now: int, id: nat)
    requires WellFormed(db) && PlanHolds(db, p) && (p.ClaimFixed? || p.ClaimLive?) && Commit(db, p, now).Ok?
    requires id in db.interviews && id != p.id
    ensures id in Commit(db, p, now).value.interviews
    ensures SiblingEffect(db, Commit(db, p, now).value, p.interviewer, p.range, now, id)
  {
    hide Clashes, RangesOverlap, Meets, HasFutureSlot, KeepsFuture, Lasts, PlanHolds, Prune;
    InterviewerHolds(db, p);
    var claimed := Claim(db, p);
    assert claimed.interviews[id] == db.interviews[id];
    assert HasOverlap(claimed, id, p.range) <==> HasOverlap(db, id, p.range);
    if p.interviewer.Some? {
      PruneEffect(claimed, p.interviewer.value, p.id, p.range, now, id);
    }
  }

  lemma PruneEffect(db: Db, user: nat, booked: nat, range: TimeRange, now: int, id: nat)
    requires id in db.interviews && id != booked
    ensures id in Prune(db, user, booked, range, now).interviews
    ensures SiblingEffect(db, Prune(db, user, booked, range, now), Some(user), range, now, id)
  {
    hide RangesOverlap, Meets;
    OverlapIsMeeting();
    var lost := SiblingSlots(db, user, booked, range);
    var kept := DropSlots(db, lost);
    var db' := Prune(db, user, booked, range, now);
    FutureIsKept(kept, id, now);
    assert KeepsFuture(db', id, now) <==> KeepsFuture(kept, id, now);
  }

  /** What a commit leaves of the interview it books. */
  lemma CommitEffectOnItself(db: Db, p: Plan, now: int)
    requires DbOrderly(db) && PlanHolds(db, p) && ClaimHolds(db, p) && Commit(db, p, now).Ok?
    ensures p.id in db.interviews && p.id in Commit(db, p, now).value.interviews
    ensures var db' := Commit(db, p, now).value;
      && db'.interviews[p.id].status == Scheduled && db'.interviews[p.id].scheduledAt == Some(p.range.startsAt)
      && Busy(db'.interviews[p.id]) == p.range
      && ShapeOf(db', p.id) && Moves(db.interviews[p.id], db'.interviews[p.id])
  {
    hide Clashes, RangesOverlap, HasFutureSlot, OffersBookable, NoDoubleBooking, Shaped, Prune, PlanHolds;
    InterviewerHolds(db, p);
    assert ShapeOf(db, p.id) by { ShapeHolds(db, p.id); }
    if p.ClaimFixed? { CommittedSlotStands(db, p, now); }
    if p.interviewer.Some? { PruneKeepsOwn(Claim(db, p), p.interviewer.value, p.id, p.range, now); }
  }

  lemma PruneKeepsOwn(db: Db, user: nat, id: nat, range: TimeRange, now: int)
    requires id in db.interviews
    ensures var db' := Prune(db, user, id, range, now);
      && id in db'.interviews && db'.interviews[id] == db.interviews[id]
      && (forall s :: s in db'.slots ==> s in db.slots && db'.slots[s] == db.slots[s])
      && (forall s :: s in db.slots && db.slots[s].interview == id ==> s in db'.slots)
  {
    hide RangesOverlap, HasFutureSlot;
  }

  lemma ShapeHolds(db: Db, id: nat)
    requires Shaped(db) && id in db.interviews
    ensures ShapeOf(db, id)
  {
  }

  lemma IsClaim(db: Db, p: Plan)
    requires ClaimHolds(db, p)
    ensures (p.ClaimFixed? || p.ClaimLive?) && p.id in db.interviews
  {
  }

  lemma SiblingKeepsShape(db: Db, db': Db, user: Option<nat>, range: TimeRange, now: int, id: nat)
    requires id in db.interviews && id in db'.interviews && ShapeOf(db, id)
    requires SiblingEffect(db, db', user, range, now, id)
    ensures ShapeOf(db', id) && Moves(db.interviews[id], db'.interviews[id])
  {
    hide Meets;
    if HasSlot(db, id) {
      var s :| s in db.slots && db.slots[s].interview == id;
    }
  }

  lemma CommitIsOrderly(db: Db, p: Plan, now: int)
    requires DbOrderly(db) && PlanHolds(db, p) && ClaimHolds(db, p)
    ensures var db' := Outcome(db, Commit(db, p, now)); DbOrderly(db') && Evolves(db, db')
  {
    hide Commit, PlanHolds, ClaimHolds, ShapeOf, Moves, SiblingEffect, WellFormed, NoDoubleBooking, OffersBookable, SlotEvolves;
    IsClaim(db, p);
    if Commit(db, p, now).Ok? {
      var db' := Commit(db, p, now).value;
      assert Write(db, p, now) == Commit(db, p, now);
      WriteIsSafe(db, p, now);
      CommitEffectOnItself(db, p, now);
      CommitAddsNoRow(db, p, now);
      forall id | id in db.interviews ensures ShapeOf(db', id) && Moves(db.interviews[id], db'.interviews[id]) {
        if id != p.id {
          CommitEffectOnOthers(db, p, now, id);
          SiblingKeepsShape(db, db', p.interviewer, p.range, now, id);
        }
      }
      forall s | IsOffered(db', s) ensures Bookable(db', s) {
        CommitKeepsBookable(db, p, now, s);
      }
      assert OffersBookable(db') by { AllBookable(db'); }
      forall s | s in db.slots && db.slots[s].interview in db.interviews ensures SlotEvolves(db, db', s) {
        CommitEvolvesSlot(db, p, now, s);
      }
    } else {
      assert OnlyStatuses(db, db) by { NothingMoves(db); }
      StatusesAreOrderly(db, db);
    }
  }

  lemma AllBookable(db: Db)
    requires forall s :: IsOffered(db, s) ==> Bookable(db, s)
    ensures OffersBookable(db)
  {
  }

  lemma NothingMoves(db: Db)
    ensures OnlyStatuses(db, db)
  {
  }

  lemma CommitAddsNoRow(db: Db, p: Plan, now: int)
    requires (p.ClaimFixed? || p.ClaimLive?) && p.id in db.interviews && Commit(db, p, now).Ok?
    ensures Commit(db, p, now).value.interviews.Keys == db.interviews.Keys
  {
  }

  lemma CommitKeepsBookable(db: Db, p: Plan, now: int, s: nat)
    requires DbOrderly(db) && PlanHolds(db, p) && ClaimHolds(db, p) && Commit(db, p, now).Ok?
    requires IsOffered(Commit(db, p, now).value, s)
    ensures Bookable(Commit(db, p, now).value, s)
  {
    hide Commit, PlanHolds, ClaimHolds, ShapeOf, WellFormed, NoDoubleBooking, Shaped, RangesOverlap, Meets, KeepsFuture, HasOverlap;
    OverlapIsMeeting();
    IsClaim(db, p);
    var db' := Commit(db, p, now).value;
    var id := db'.slots[s].interview;
    CommitEffectOnItself(db, p, now);
    CommitAddsNoRow(db, p, now);
    CommitEffectOnOthers(db, p, now, id);
    assert KeptUnlessPruned(db, db', p.interviewer.Some? && db.interviews[id].interviewer == p.interviewer, p.range, s);
    assert IsOffered(db, s) && Bookable(db, s);
    if i: nat :| db'.interviews[id].interviewer == Some(i) {
      forall j | j in db'.interviews && IsBooking(db'.interviews[j], i) ensures !RangesOverlap(db'.slots[s].range, Busy(db'.interviews[j])) {
        if j != p.id {
          CommitEffectOnOthers(db, p, now, j);
        } else {
          ClaimedInterviewer(db, p, now);
        }
      }
    }
  }

  lemma ClaimedInterviewer(db: Db, p: Plan, now: int)
    requires DbOrderly(db) && PlanHolds(db, p) && ClaimHolds(db, p) && Commit(db, p, now).Ok?
    ensures p.id in Commit(db, p, now).value.interviews
    ensures Commit(db, p, now).value.interviews[p.id].interviewer == p.interviewer
  {
    hide Commit, DbOrderly, ShapeOf;
    InterviewerHolds(db, p);
    CommitEffectOnItself(db, p, now);
  }

  lemma CommitEvolvesSlot(db: Db, p: Plan, now: int, s: nat)
    requires DbOrderly(db) && PlanHolds(db, p) && ClaimHolds(db, p) && Commit(db, p, now).Ok?
    requires s in db.slots && db.slots[s].interview in db.interviews
    ensures SlotEvolves(db, Commit(db, p, now).value, s)
  {
    hide Commit, PlanHolds, ClaimHolds, ShapeOf, WellFormed, NoDoubleBooking, Shaped, OffersBookable, RangesOverlap, Meets, KeepsFuture, HasOverlap;
    OverlapIsMeeting();
    IsClaim(db, p);
    var db' := Commit(db, p, now).value;
    var id := db.slots[s].interview;
    CommitEffectOnItself(db, p, now);
    if id != p.id {
      CommitEffectOnOthers(db, p, now, id);
      ClaimedInterviewer(db, p, now);
      var sibling := p.interviewer.Some? && db.interviews[id].interviewer == p.interviewer && db.interviews[id].status == AwaitingCandidate;
      assert KeptUnlessPruned(db, db', sibling, p.range, s);
      assert p.interviewer.Some? ==> IsBooking(db'.interviews[p.id], p.interviewer.value);
    }
  }

  // ---------------------------------------------------------------------------
  // Runs
  // ---------------------------------------------------------------------------

  lemma ReadBookHolds(db: Db, r: Request, now: int)
    requires r.Book? && Read(db, r, now).Ok?
    ensures ClaimHolds(db, Read(db, r, now).value)
  {
    hide SlotGrid, FindStart, Clashes;
  }

  lemma AtomicStepIsOrderly(s: Sys, a: Action, s': Sys)
    requires Orderly(s) && AtomicStep(s, a, s')
    ensures Orderly(s') && Evolves(s.db, s'.db)
  {
    hide Read, Write, Perform, PlanHolds, ClaimHolds, DbOrderly, Evolves, Extends;
    match a
    case Begin(r, now) =>
      ReadHolds(s.db, r, now) by { OrderlyIsWellFormed(s.db); }
      ReadBookHolds(s.db, r, now);
      NothingMoves(s.db);
      StatusesAreOrderly(s.db, s.db);
    case Finish(p, now) =>
      assert Write(s.db, p, now) == Commit(s.db, p, now) by { ClaimsCommit(s.db, p, now); }
      CommitIsOrderly(s.db, p, now);
      CarryClaims(s, s', multiset{p});
    case Do(r, now) =>
      RequestIsOrderly(s.db, r, now);
      CarryClaims(s, s', multiset{});
  }

  lemma OrderlyIsWellFormed(db: Db)
    requires DbOrderly(db)
    ensures WellFormed(db)
  {
  }

  lemma ClaimsCommit(db: Db, p: Plan, now: int)
    requires PlanHolds(db, p) && ClaimHolds(db, p)
    ensures (p.ClaimFixed? || p.ClaimLive?) && p.id in db.interviews && Write(db, p, now) == Commit(db, p, now)
  {
    hide Commit;
  }

  lemma CarryClaims(s: Sys, s': Sys, done: multiset<Plan>)
    requires Orderly(s) && Evolves(s.db, s'.db) && DbOrderly(s'.db) && s'.pending == s.pending - done
    ensures Orderly(s')
  {
    hide PlanHolds, ClaimHolds, Evolves, WellFormed, Shaped, OffersBookable, NoDoubleBooking;
    assert Extends(s.db, s'.db) by { EvolvingExtends(s.db, s'.db); }
    forall p | p in s'.pending ensures PlanHolds(s'.db, p) && ClaimHolds(s'.db, p) {
      assert p in s.pending;
      PlansPersist(s.db, s'.db, p);
      ClaimsPersist(s.db, s'.db, p);
    }
  }

  lemma EvolvingExtends(db: Db, db': Db)
    requires Evolves(db, db')
    ensures Extends(db, db')
  {
  }

  lemma {:induction false} AtomicRunIsOrderly(run: seq<Sys>)
    requires IsRun(run, AtomicNext)
    ensures Orderly(run[|run| - 1])
    decreases |run|
  {
    hide AtomicStep;
    if |run| > 1 {
      AtomicRunIsOrderly(run[..|run| - 1]);
      var s, s' := run[|run| - 2], run[|run| - 1];
      assert AtomicNext(s, s');
      var a :| AtomicStep(s, a, s');
      AtomicStepIsOrderly(s, a, s');
    }
  }

  // ---------------------------------------------------------------------------
  // Fresh bookings commit
  // ---------------------------------------------------------------------------

  /** A FIXED booking whose snapshot is still current always commits. */
  lemma FreshFixedBookingCommits(db: Db, r: Request, now: int, later: int)
    requires DbOrderly(db) && r.Book? && Read(db, r, now).Ok? && Read(db, r, now).value.ClaimFixed?
    ensures Commit(db, Read(db, r, now).value, later).Ok?
  {
    hide RangesOverlap, Prune, SlotGrid, FindStart, Shaped, NoDoubleBooking;
    var p := Read(db, r, now).value;
    if p.interviewer.Some? {
      ClashesIgnoresTheClaim(db, p, p.interviewer.value);
      assert IsOffered(db, p.slotId);
      assert Bookable(db, p.slotId);
    }
  }

  /** A LIVE booking whose grid was computed from the current bookings always commits. */
  lemma FreshLiveBookingCommits(db: Db, r: Request, now: int, later: int)
    requires r.Book? && Read(db, r, now).Ok? && Read(db, r, now).value.ClaimLive?
    requires forall b :: b in r.booked <==> b in BookedRanges(db, db.interviews[r.id].interviewer.value)
    ensures Commit(db, Read(db, r, now).value, later).Ok?
  {
    hide RangesOverlap, Prune, SlotGrid, FindStart;
    var p := Read(db, r, now).value;
    var user := p.interviewer.value;
    LiveSlotLasts(db.interviews[r.id], r.schedule, r.booked, r.start.value, now);
    ClashesIgnoresTheClaim(db, p, user);
    forall j | j in db.interviews && IsBooking(db.interviews[j], user) ensures !RangesOverlap(p.range, Busy(db.interviews[j])) {
      assert Busy(db.interviews[j]) in BookedRanges(db, user);
    }
  }

  // ---------------------------------------------------------------------------
  // Bounded lifetime
  // ---------------------------------------------------------------------------

  /** How often the status of `id` changes along a run. */
  ghost function StatusChanges(run: seq<Sys>, id: nat): nat
    decreases |run|
  {
    if |run| <= 1 then 0
    else
      var before, after := run[|run| - 2].db.interviews, run[|run| - 1].db.interviews;
      StatusChanges(run[..|run| - 1], id)
      + if id in before && id in after && before[id].status != after[id].status then 1 else 0
  }

  lemma {:induction false} ChangesSpendRank(run: seq<Sys>, id: nat)
    requires IsRun(run, AtomicNext)
    ensures var last := run[|run| - 1].db.interviews;
      if id in last then StatusChanges(run, id) + Rank(last[id].status) <= 3 else StatusChanges(run, id) == 0
    decreases |run|
  {
    hide AtomicStep, Orderly, SlotEvolves;
    if |run| > 1 {
      var init := run[..|run| - 1];
      ChangesSpendRank(init, id);
      AtomicRunIsOrderly(init);
      var s, s' := run[|run| - 2], run[|run| - 1];
      assert init[|init| - 1] == s;
      assert AtomicNext(s, s');
      var a :| AtomicStep(s, a, s');
      AtomicStepIsOrderly(s, a, s');
      assert id in s.db.interviews ==> Moves(s.db.interviews[id], s'.db.interviews[id]);
    }
  }

  /** An interview changes status at most three times. */
  lemma AtMostThreeChanges(run: seq<Sys>, id: nat)
    requires IsRun(run, AtomicNext)
    ensures StatusChanges(run, id) <= 3
  {
    ChangesSpendRank(run, id);
  }

  /**
   * Once confirmed, an interview is never touched again and its slot row stands
   * in every later state; a cancelled one stays cancelled.
   */
  lemma {:induction false} ConfirmedIsFinal(run: seq<Sys>, k: nat, id: nat)
    requires IsRun(run, AtomicNext) && k < |run|
    requires id in run[k].db.interviews && run[k].db.interviews[id].status in {Scheduled, Cancelled}
    ensures var last := run[|run| - 1].db;
      && id in last.interviews && last.interviews[id] == run[k].db.interviews[id]
      && (last.interviews[id].status == Scheduled ==> HoldsItsSlot(last, id))
    decreases |run|
  {
    hide AtomicStep, SlotEvolves, WellFormed, NoDoubleBooking, OffersBookable, PlanHolds, ClaimHolds;
    AtomicRunIsOrderly(run);
    assert id in run[|run| - 1].db.interviews ==> ShapeOf(run[|run| - 1].db, id);
    if k < |run| - 1 {
      var init := run[..|run| - 1];
      ConfirmedIsFinal(init, k, id);
      AtomicRunIsOrderly(init);
      var s, s' := run[|run| - 2], run[|run| - 1];
      assert AtomicNext(s, s');
      var a :| AtomicStep(s, a, s');
      AtomicStepIsOrderly(s, a, s');
      assert Moves(s.db.interviews[id], s'.db.interviews[id]);
    }
  }

  // ---------------------------------------------------------------------------
  // Expiry by the scheduler
  // ---------------------------------------------------------------------------

  /**
   * Whatever rows its two queries return, the hourly job expires of them exactly the
   * open FIXED offers without a future slot and the requests unanswered for fourteen
   * days; nothing else changes, and a LIVE offer never does.
   */
  lemma ExpiryIsExact(db: Db, offers: set<nat>, requests: set<nat>, now: int, id: nat)
    requires id in db.interviews
    ensures var db' := Perform(db, ExpireStale(offers, requests), now);
      var i := db.interviews[id];
      && db'.Ok? && db'.value.slots == db.slots && db'.value.interviews.Keys == db.interviews.Keys
      && db'.value.nextInterview == db.nextInterview && db'.value.nextSlot == db.nextSlot
      && db'.value.interviews[id] ==
        (if (id in offers && i.status == AwaitingCandidate && i.offerMode == Fixed && !KeepsFuture(db, id, now))
            || (id in requests && i.status == AwaitingManager && i.createdAt < now - 1_209_600_000)
         then i.(status := Expired) else i)
  {
    hide HasFutureSlot, KeepsFuture;
    FutureIsKept(db, id, now);
  }
}
