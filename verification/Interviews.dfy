// Interviews, their offered slots, and the service that moves them through the booking protocol.
module Interviews {
  import opened Wrappers
  import opened Zones
  import opened SlotConflicts
  import opened SlotEngine

  datatype Status = AwaitingManager | AwaitingCandidate | Scheduled | Cancelled | Expired

  /** FIXED offers store their slots; LIVE offers are computed on demand. */
  datatype OfferMode = Fixed | Live

  datatype Interview = Interview(
    interviewer: Option<nat>, durationMinutes: nat, zone: Zone, createdAt: int,
    status: Status, offerMode: OfferMode, scheduledSlot: Option<nat>, scheduledAt: Option<int>)

  datatype Slot = Slot(interview: nat, range: TimeRange)

  /** The two tables. Identifiers are handed out once, in order. */
  datatype Db = Db(interviews: map<nat, Interview>, slots: map<nat, Slot>, nextInterview: nat, nextSlot: nat)

  const EMPTY := Db(map[], map[], 0, 0)

  datatype Failure = NotFound | Forbidden | BadRequest | Unreadable | Conflict

  const MANAGER_EXPIRE_AFTER_MS := 14 * 24 * 60 * 60 * 1000
  const LIVE_DAYS := 60
  const LIVE_STEP := 5

  datatype CreateMode = ManualSlots | RequestManager

  /** What a caller asks for; a booking carries the interviewer's schedule and bookings as read for it. */
  datatype Request =
    | Create(mode: Option<CreateMode>, interviewer: Option<nat>, durationMinutes: nat, zone: Zone, walls: seq<string>)
    | Submit(id: nat, user: nat, walls: seq<string>)
    | Share(id: nat, user: nat, hasRules: bool)
    | Cancel(id: nat)
    | ExpireStale(offers: set<nat>, requests: set<nat>)
    | Book(id: nat, slotId: Option<nat>, start: Option<string>, schedule: Schedule, booked: seq<TimeRange>)

  /** What a request goes on to write once its reads and checks have passed. */
  datatype Plan =
    | Insert(row: Interview, ranges: seq<TimeRange>)
    | Offer(id: nat, ranges: seq<TimeRange>)
    | GoLive(id: nat)
    | Withdraw(id: nat)
    | Expire(ids: set<nat>)
    | ClaimFixed(id: nat, interviewer: Option<nat>, slotId: nat, range: TimeRange)
    | ClaimLive(id: nat, interviewer: Option<nat>, range: TimeRange)

  // ---------------------------------------------------------------------------
  // Offered and booked time
  // ---------------------------------------------------------------------------

  function RangeFrom(start: int, durationMinutes: nat): TimeRange {
    TimeRange(start, start + durationMinutes * MS_PER_MINUTE)
  }

  /** `[...new Set(walls)]`. */
  function Unique(walls: seq<string>): seq<string> {
    if walls == [] then []
    else
      var init, last := walls[..|walls| - 1], walls[|walls| - 1];
      Unique(init) + (if last in init then [] else [last])
  }

  /** None where an unreadable wall time throws. */
  function ConvertAll(walls: seq<string>, z: Zone, durationMinutes: nat): (r: Option<seq<TimeRange>>)
    ensures r.Some? ==> |r.value| == |walls| && forall i :: 0 <= i < |walls| ==>
      var utc := ZonedWallTimeToUtc(walls[i], z);
      utc.Some? && r.value[i] == RangeFrom(utc.value, durationMinutes)
  {
    if walls == [] then Some([])
    else
      var head := ZonedWallTimeToUtc(walls[0], z);
      var tail := ConvertAll(walls[1..], z, durationMinutes);
      if head.Some? && tail.Some? then Some([RangeFrom(head.value, durationMinutes)] + tail.value) else None
  }

  function BuildSlots(walls: seq<string>, z: Zone, durationMinutes: nat): Option<seq<TimeRange>> {
    ConvertAll(Unique(walls), z, durationMinutes)
  }

  /** The confirmed time of a scheduled interview. */
  function Busy(i: Interview): TimeRange
    requires i.scheduledAt.Some?
  {
    RangeFrom(i.scheduledAt.value, i.durationMinutes)
  }

  predicate IsBooking(i: Interview, user: nat) {
    i.interviewer == Some(user) && i.status == Scheduled && i.scheduledAt.Some?
  }

  function BookedRanges(db: Db, user: nat): set<TimeRange> {
    set id | id in db.interviews && IsBooking(db.interviews[id], user) :: Busy(db.interviews[id])
  }

  /** Some interview of `user`, other than `except` if given, is confirmed for a time that overlaps `range`. */
  predicate Clashes(db: Db, user: nat, except: Option<nat>, range: TimeRange) {
    exists id :: id in db.interviews && except != Some(id) && IsBooking(db.interviews[id], user)
      && RangesOverlap(range, Busy(db.interviews[id]))
  }

  predicate AnyClashes(db: Db, interviewer: Option<nat>, except: Option<nat>, ranges: seq<TimeRange>) {
    interviewer.Some? && exists i :: 0 <= i < |ranges| && Clashes(db, interviewer.value, except, ranges[i])
  }

  function LiveOptions(i: Interview, now: int): Options {
    Options(i.zone, i.durationMinutes, LIVE_DAYS, LIVE_STEP, now)
  }

  /** The first slot of the grid whose wall time is `start`. */
  function FindStart(grid: seq<GridDay>, start: string): Option<Candidate> {
    if grid == [] then None
    else
      var hit := FindInDay(grid[0].slots, start);
      if hit.Some? then hit else FindStart(grid[1..], start)
  }

  function FindInDay(slots: seq<Candidate>, start: string): Option<Candidate> {
    if slots == [] then None
    else if slots[0].start == start then Some(slots[0])
    else FindInDay(slots[1..], start)
  }

  // ---------------------------------------------------------------------------
  // Reading: the checks before anything is written
  // ---------------------------------------------------------------------------

  function ReadCreate(db: Db, r: Request, now: int): Result<Plan, Failure>
    requires r.Create?
  {
    var mode := match r.mode case Some(m) => m case None => if r.walls == [] then RequestManager else ManualSlots;
    var row := Interview(r.interviewer, r.durationMinutes, r.zone, now, AwaitingManager, Fixed, None, None);
    match mode
    case ManualSlots =>
      if r.walls == [] then Err(BadRequest)
      else
        var slots := BuildSlots(r.walls, r.zone, r.durationMinutes);
        if slots.None? then Err(Unreadable)
        else if AnyClashes(db, r.interviewer, None, slots.value) then Err(BadRequest)
        else Ok(Insert(row.(status := AwaitingCandidate), slots.value))
    case RequestManager =>
      if r.interviewer.None? then Err(BadRequest) else Ok(Insert(row, []))
  }

  function ReadSubmit(db: Db, id: nat, user: nat, walls: seq<string>): Result<Plan, Failure> {
    if id !in db.interviews then Err(NotFound)
    else
      var i := db.interviews[id];
      if i.interviewer != Some(user) then Err(Forbidden)
      else if i.status != AwaitingManager || walls == [] then Err(BadRequest)
      else
        var slots := BuildSlots(walls, i.zone, i.durationMinutes);
        if slots.None? then Err(Unreadable)
        else if AnyClashes(db, i.interviewer, Some(id), slots.value) then Err(BadRequest)
        else Ok(Offer(id, slots.value))
  }

  function ReadShare(db: Db, id: nat, user: nat, hasRules: bool): Result<Plan, Failure> {
    if id !in db.interviews then Err(NotFound)
    else if db.interviews[id].interviewer != Some(user) then Err(Forbidden)
    else if db.interviews[id].status != AwaitingManager || !hasRules then Err(BadRequest)
    else Ok(GoLive(id))
  }

  function ReadCancel(db: Db, id: nat): Result<Plan, Failure> {
    if id !in db.interviews then Err(NotFound)
    else if db.interviews[id].status in {Cancelled, Scheduled} then Err(BadRequest)
    else Ok(Withdraw(id))
  }

  predicate IsOpenOffer(i: Interview) {
    i.status == AwaitingCandidate && i.offerMode == Fixed
  }

  predicate IsUnanswered(i: Interview, now: int) {
    i.status == AwaitingManager && i.createdAt < now - MANAGER_EXPIRE_AFTER_MS
  }

  predicate HasFutureSlot(db: Db, id: nat, now: int) {
    exists s :: s in db.slots && db.slots[s].interview == id && db.slots[s].range.startsAt > now
  }

  /** `offers` and `requests` are the rows the two limited queries happened to return. */
  function ReadExpireStale(db: Db, offers: set<nat>, requests: set<nat>, now: int): Result<Plan, Failure> {
    Ok(Expire(
      (set id | id in offers && id in db.interviews && IsOpenOffer(db.interviews[id]) && !HasFutureSlot(db, id, now))
      + (set id | id in requests && id in db.interviews && IsUnanswered(db.interviews[id], now))))
  }

  function ReadBook(db: Db, r: Request, now: int): Result<Plan, Failure>
    requires r.Book?
  {
    if r.id !in db.interviews then Err(NotFound)
    else
      var i := db.interviews[r.id];
      if i.status != AwaitingCandidate then Err(BadRequest)
      else if i.offerMode == Fixed then
        if r.slotId.None? || r.slotId.value !in db.slots || db.slots[r.slotId.value].interview != r.id then Err(BadRequest)
        else if db.slots[r.slotId.value].range.startsAt <= now then Err(BadRequest)
        else Ok(ClaimFixed(r.id, i.interviewer, r.slotId.value, db.slots[r.slotId.value].range))
      else if r.start.None? || r.start.value == "" || i.interviewer.None? then Err(BadRequest)
      else
        var hit := FindStart(SlotGrid(r.schedule, r.booked, LiveOptions(i, now)), r.start.value);
        if hit.None? then Err(Conflict) else Ok(ClaimLive(r.id, i.interviewer, RangeOf(hit.value)))
  }

  function Read(db: Db, r: Request, now: int): Result<Plan, Failure> {
    match r
    case Create(_, _, _, _, _) => ReadCreate(db, r, now)
    case Submit(id, user, walls) => ReadSubmit(db, id, user, walls)
    case Share(id, user, hasRules) => ReadShare(db, id, user, hasRules)
    case Cancel(id) => ReadCancel(db, id)
    case ExpireStale(offers, requests) => ReadExpireStale(db, offers, requests, now)
    case Book(_, _, _, _, _) => ReadBook(db, r, now)
  }

  // ---------------------------------------------------------------------------
  // Writing: none of these re-checks what was read, except the booking claim
  // ---------------------------------------------------------------------------

  function NewSlot(id: nat, ranges: seq<TimeRange>, first: nat, s: nat): Slot
    requires first <= s < first + |ranges|
  {
    Slot(id, ranges[s - first])
  }

  function AddSlots(db: Db, id: nat, ranges: seq<TimeRange>): Db {
    db.(slots := db.slots + (map s: nat | db.nextSlot <= s < db.nextSlot + |ranges| :: NewSlot(id, ranges, db.nextSlot, s)),
        nextSlot := db.nextSlot + |ranges|)
  }

  function DropSlots(db: Db, dropped: set<nat>): Db {
    db.(slots := map s | s in db.slots && s !in dropped :: db.slots[s])
  }

  function Update(db: Db, id: nat, i: Interview): Db {
    db.(interviews := db.interviews[id := i])
  }

  function SetExpired(db: Db, ids: set<nat>): Db {
    db.(interviews := map id | id in db.interviews ::
      if id in ids then db.interviews[id].(status := Expired) else db.interviews[id])
  }

  function SlotsOf(db: Db, id: nat): set<nat> {
    set s | s in db.slots && db.slots[s].interview == id
  }

  function WriteInsert(db: Db, row: Interview, ranges: seq<TimeRange>): Db {
    AddSlots(db.(interviews := db.interviews[db.nextInterview := row], nextInterview := db.nextInterview + 1),
      db.nextInterview, ranges)
  }

  function WriteOffer(db: Db, id: nat, ranges: seq<TimeRange>): Db
    requires id in db.interviews
  {
    var written := AddSlots(DropSlots(db, SlotsOf(db, id)), id, ranges);
    Update(written, id, db.interviews[id].(status := AwaitingCandidate, offerMode := Fixed))
  }

  /** Open slots of other offers of `user` that overlap the booked range. */
  function SiblingSlots(db: Db, user: nat, id: nat, range: TimeRange): set<nat> {
    set s | s in db.slots && var other := db.slots[s].interview;
      && other != id && other in db.interviews && db.interviews[other].interviewer == Some(user)
      && db.interviews[other].status == AwaitingCandidate && RangesOverlap(db.slots[s].range, range)
  }

  /** Prunes the sibling slots and expires the siblings that lost one and keep no future slot. */
  function Prune(db: Db, user: nat, id: nat, range: TimeRange, now: int): Db {
    var lost := SiblingSlots(db, user, id, range);
    var kept := DropSlots(db, lost);
    SetExpired(kept, set s | s in lost && !HasFutureSlot(kept, db.slots[s].interview, now) :: db.slots[s].interview)
  }

  /** The flip to SCHEDULED, materializing the slot of a LIVE claim. */
  function Claim(db: Db, p: Plan): Db
    requires (p.ClaimFixed? || p.ClaimLive?) && p.id in db.interviews
  {
    var slotId := if p.ClaimFixed? then p.slotId else db.nextSlot;
    var written := if p.ClaimFixed? then db else AddSlots(db, p.id, [p.range]);
    Update(written, p.id,
      db.interviews[p.id].(status := Scheduled, scheduledSlot := Some(slotId), scheduledAt := Some(p.range.startsAt)))
  }

  /** The booking transaction: all of it, or on a conflict none of it. */
  function Commit(db: Db, p: Plan, now: int): Result<Db, Failure>
    requires (p.ClaimFixed? || p.ClaimLive?) && p.id in db.interviews
  {
    if db.interviews[p.id].status != AwaitingCandidate then Err(Conflict)
    else
      var claimed := Claim(db, p);
      if p.interviewer.None? then Ok(claimed)
      else if Clashes(claimed, p.interviewer.value, Some(p.id), p.range) then Err(Conflict)
      else Ok(Prune(claimed, p.interviewer.value, p.id, p.range, now))
  }

  /** The row a plan updates by its key exists. */
  predicate Names(db: Db, p: Plan) {
    match p
    case Insert(_, _) => true
    case Expire(_) => true
    case Offer(id, _) => id in db.interviews
    case GoLive(id) => id in db.interviews
    case Withdraw(id) => id in db.interviews
    case ClaimFixed(id, _, _, _) => id in db.interviews
    case ClaimLive(id, _, _) => id in db.interviews
  }

  function Write(db: Db, p: Plan, now: int): Result<Db, Failure> {
    if !Names(db, p) then Err(NotFound)
    else
      match p
      case Insert(row, ranges) => Ok(WriteInsert(db, row, ranges))
      case Offer(id, ranges) => Ok(WriteOffer(db, id, ranges))
      case GoLive(id) => Ok(Update(db, id, db.interviews[id].(status := AwaitingCandidate, offerMode := Live)))
      case Withdraw(id) => Ok(Update(db, id, db.interviews[id].(status := Cancelled)))
      case Expire(ids) => Ok(SetExpired(db, ids))
      case ClaimFixed(_, _, _, _) => Commit(db, p, now)
      case ClaimLive(_, _, _) => Commit(db, p, now)
  }

  /** A request that reads and writes with nothing in between. */
  function Perform(db: Db, r: Request, now: int): Result<Db, Failure> {
    match Read(db, r, now)
    case Err(e) => Err(e)
    case Ok(p) => Write(db, p, now)
  }
}
