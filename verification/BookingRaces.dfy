// What the unguarded writes of `cancel` and `expireStale` cost when they race with a booking.
module BookingRaces {
  import opened Calendar
  import opened Text
  import opened Wrappers
  import opened Zones
  import opened SlotConflicts
  import opened SlotEngine
  import opened Interviews
  import opened BookingSafety
  import opened BookingLife

  const USER := 7
  const LENGTH := 30

  /** Two wall times an hour apart. */
  const TEN := Naive(CivilDate(2030, 1, 1), 10, 0, 0)
  const ELEVEN := Naive(CivilDate(2030, 1, 1), 11, 0, 0)

  function At(n: Naive): TimeRange {
    RangeFrom(UtcMs(n), LENGTH)
  }

  lemma WallOf(n: Naive)
    requires n == TEN || n == ELEVEN
    ensures ZonedWallTimeToUtc(WallString(n), UTC) == Some(UtcMs(n))
    ensures UtcMs(TEN) > FIRST_INSTANT >= -400_000 * MS_PER_DAY && UtcMs(ELEVEN) == UtcMs(TEN) + 3_600_000
  {
    hide WallString, ParseNaive, DayFromYear, TwoPass, IsLeap;
    var day := UtcDay(n.date);
    assert DayFromYear(2030) == day by { assert 0 / 12 == 0 && 0 % 12 == 0; }
    YearsAscend(1001, 2030);
    YearsAscend(2030, 9998);
    DayFromYearClosedForm(1001);
    WallRoundTrip(n);
    assert n.(second := 0) == n;
    WholeSeconds(n);
    TwoPassReadsOffsets(UtcMs(n), UTC);
  }

  lemma WallsDiffer()
    ensures WallString(TEN) != WallString(ELEVEN)
  {
    hide WallString;
    if WallString(TEN) == WallString(ELEVEN) { WallStringsDiffer(TEN, ELEVEN); }
  }

  function Row(status: Status, slotId: Option<nat>, at: Option<int>, now: int): Interview {
    Interview(Some(USER), LENGTH, UTC, now, status, Fixed, slotId, at)
  }

  /** Interview 0 offers both times in slots 0 and 1, interview 1 offers the first in slot 2. */
  function Offers(now: int): Db {
    Db(map[0 := Row(AwaitingCandidate, None, None, now), 1 := Row(AwaitingCandidate, None, None, now)],
       map[0 := Slot(0, At(TEN)), 1 := Slot(0, At(ELEVEN)), 2 := Slot(1, At(TEN))], 2, 3)
  }

  function First(now: int): Db {
    Db(map[0 := Row(AwaitingCandidate, None, None, now)], map[0 := Slot(0, At(TEN)), 1 := Slot(0, At(ELEVEN))], 1, 2)
  }

  /** Slot 2 is booked, which pruned slot 0; interview 1 then has status `second`. */
  function Pruned(second: Status, now: int): Db {
    Db(map[0 := Row(AwaitingCandidate, None, None, now), 1 := Row(second, Some(2), Some(At(TEN).startsAt), now)],
       map[1 := Slot(0, At(ELEVEN)), 2 := Slot(1, At(TEN))], 2, 3)
  }

  /** Interview 0 is confirmed for slot 0, which no longer exists. */
  function Dangling(now: int): Db {
    Db(map[0 := Row(Scheduled, Some(0), Some(At(TEN).startsAt), now), 1 := Row(Cancelled, Some(2), Some(At(TEN).startsAt), now)],
       map[1 := Slot(0, At(ELEVEN)), 2 := Slot(1, At(TEN))], 2, 3)
  }

  function CreateRequest(walls: seq<string>): Request {
    Create(Some(ManualSlots), Some(USER), LENGTH, UTC, walls)
  }

  function BookRequest(id: nat, slotId: nat): Request {
    Book(id, Some(slotId), None, Schedule(UTC, [], []), [])
  }

  lemma BuiltPair()
    ensures BuildSlots([WallString(TEN), WallString(ELEVEN)], UTC, LENGTH) == Some([At(TEN), At(ELEVEN)])
    ensures BuildSlots([WallString(TEN)], UTC, LENGTH) == Some([At(TEN)])
  {
    hide WallString, ZonedWallTimeToUtc, UtcMs;
    WallOf(TEN);
    WallOf(ELEVEN);
    WallsDiffer();
    var a, b := WallString(TEN), WallString(ELEVEN);
    assert [a][..0] == [];
    assert Unique([a]) == [a];
    assert [a, b][..1] == [a];
    assert Unique([a, b]) == [a, b];
    assert [a, b][1..] == [b];
    assert [b][1..] == [];
    assert [a][1..] == [];
    assert ConvertAll([], UTC, LENGTH) == Some([]);
    assert [At(TEN)] + [] == [At(TEN)] && [At(ELEVEN)] + [] == [At(ELEVEN)];
    assert ConvertAll([a], UTC, LENGTH) == Some([At(TEN)]);
    assert ConvertAll([b], UTC, LENGTH) == Some([At(ELEVEN)]);
    assert ConvertAll([a, b], UTC, LENGTH) == Some([At(TEN)] + [At(ELEVEN)]);
    assert [At(TEN)] + [At(ELEVEN)] == [At(TEN), At(ELEVEN)];
  }

  lemma CreatesBoth(now: int)
    ensures var r := Read(EMPTY, CreateRequest([WallString(TEN), WallString(ELEVEN)]), now);
      r.Ok? && Write(EMPTY, r.value, now) == Ok(First(now))
    ensures var r := Read(First(now), CreateRequest([WallString(TEN)]), now);
      r.Ok? && Write(First(now), r.value, now) == Ok(Offers(now))
  {
    hide WallString, UtcMs, BuildSlots;
    BuiltPair();
    var row := Row(AwaitingCandidate, None, None, now);
    assert [At(TEN), At(ELEVEN)][0] == At(TEN);
    assert WriteInsert(EMPTY, row, [At(TEN), At(ELEVEN)]).slots == First(now).slots;
    assert WriteInsert(First(now), row, [At(TEN)]).slots == Offers(now).slots;
  }

  lemma ReadsOnOffers(now: int)
    requires now < UtcMs(TEN)
    ensures Read(Offers(now), BookRequest(0, 0), now) == Ok(ClaimFixed(0, Some(USER), 0, At(TEN)))
    ensures Read(Offers(now), BookRequest(1, 2), now) == Ok(ClaimFixed(1, Some(USER), 2, At(TEN)))
    ensures Read(Offers(now), Cancel(1), now) == Ok(Withdraw(1))
  {
    hide UtcMs;
  }

  lemma SecondBooks(now: int)
    requires now < UtcMs(TEN)
    ensures Write(Offers(now), ClaimFixed(1, Some(USER), 2, At(TEN)), now) == Ok(Pruned(Scheduled, now))
  {
    hide UtcMs;
    var p := ClaimFixed(1, Some(USER), 2, At(TEN));
    var claimed := Claim(Offers(now), p);
    assert claimed.interviews == Pruned(Scheduled, now).interviews;
    assert !Clashes(claimed, USER, Some(1), At(TEN));
    SecondPrunes(claimed, now);
  }

  lemma SecondPrunes(claimed: Db, now: int)
    requires now < UtcMs(TEN)
    requires claimed == Offers(now).(interviews := Pruned(Scheduled, now).interviews)
    ensures Prune(claimed, USER, 1, At(TEN), now) == Pruned(Scheduled, now)
  {
    hide At, RangesOverlap, Prune, HasFutureSlot;
    OnlySlotZeroOverlaps();
    var lost := SiblingSlots(claimed, USER, 1, At(TEN));
    assert lost == {0};
    var kept := DropSlots(claimed, lost);
    assert kept == Pruned(Scheduled, now);
    PruneExpiresNone(claimed, now);
  }

  lemma OnlySlotZeroOverlaps()
    ensures RangesOverlap(At(TEN), At(TEN)) && !RangesOverlap(At(ELEVEN), At(TEN))
  {
    hide UtcMs;
    WallOf(ELEVEN);
  }

  lemma PruneExpiresNone(claimed: Db, now: int)
    requires now < UtcMs(TEN)
    requires SiblingSlots(claimed, USER, 1, At(TEN)) == {0} && 0 in claimed.slots && claimed.slots[0].interview == 0
    requires DropSlots(claimed, {0}) == Pruned(Scheduled, now)
    ensures Prune(claimed, USER, 1, At(TEN), now) == Pruned(Scheduled, now)
  {
    hide UtcMs, SiblingSlots, At, HasFutureSlot;
    KeepsFutureSlot(now);
    var kept := Pruned(Scheduled, now);
    assert SetExpired(kept, {}).interviews == kept.interviews;
  }

  lemma KeepsFutureSlot(now: int)
    requires now < UtcMs(TEN)
    ensures HasFutureSlot(Pruned(Scheduled, now), 0, now)
  {
    hide UtcMs;
    WallOf(ELEVEN);
    assert 1 in Pruned(Scheduled, now).slots;
  }

  lemma FirstBooks(now: int)
    requires now < UtcMs(TEN)
    ensures Write(Pruned(Cancelled, now), ClaimFixed(0, Some(USER), 0, At(TEN)), now) == Ok(Dangling(now))
  {
    hide UtcMs, RangesOverlap;
    var p := ClaimFixed(0, Some(USER), 0, At(TEN));
    var claimed := Claim(Pruned(Cancelled, now), p);
    assert claimed == Dangling(now);
    assert !Clashes(claimed, USER, Some(0), At(TEN));
    assert SiblingSlots(claimed, USER, 0, At(TEN)) == {};
    assert DropSlots(claimed, {}).slots == claimed.slots;
    assert Prune(claimed, USER, 0, At(TEN), now).interviews == claimed.interviews;
  }

  lemma Began(run: seq<Sys>, r: Request, now: int) returns (longer: seq<Sys>)
    requires IsRun(run, RacyNext) && Read(run[|run| - 1].db, r, now).Ok?
    ensures IsRun(longer, RacyNext) && |longer| == |run| + 1 && longer[..|run|] == run
    ensures var s := run[|run| - 1];
      longer[|run|] == Sys(s.db, s.pending + multiset{Read(s.db, r, now).value})
  {
    hide Read;
    var s := run[|run| - 1];
    longer := RacyExtends(run, Begin(r, now), Sys(s.db, s.pending + multiset{Read(s.db, r, now).value}));
  }

  lemma Finished(run: seq<Sys>, p: Plan, now: int) returns (longer: seq<Sys>)
    requires IsRun(run, RacyNext) && p in run[|run| - 1].pending && Write(run[|run| - 1].db, p, now).Ok?
    ensures IsRun(longer, RacyNext) && |longer| == |run| + 1 && longer[..|run|] == run
    ensures var s := run[|run| - 1];
      longer[|run|] == Sys(Write(s.db, p, now).value, s.pending - multiset{p})
  {
    hide Write;
    var s := run[|run| - 1];
    longer := RacyExtends(run, Finish(p, now), Sys(Write(s.db, p, now).value, s.pending - multiset{p}));
  }

  /** Both interviews are offered and nothing is pending. */
  lemma OffersAreReachable(now: int) returns (run: seq<Sys>)
    ensures IsRun(run, RacyNext) && run[|run| - 1] == Sys(Offers(now), multiset{})
  {
    hide Read, Write, Offers, First, WallString;
    CreatesBoth(now);
    run := [INITIAL];
    var p := Read(EMPTY, CreateRequest([WallString(TEN), WallString(ELEVEN)]), now).value;
    run := Began(run, CreateRequest([WallString(TEN), WallString(ELEVEN)]), now);
    run := Finished(run, p, now);
    var q := Read(First(now), CreateRequest([WallString(TEN)]), now).value;
    run := Began(run, CreateRequest([WallString(TEN)]), now);
    run := Finished(run, q, now);
    assert run[|run| - 1].pending == multiset{};
  }

  /**
   * With `cancel` split into its read and its unguarded write, a confirmed
   * interview can become cancelled, and after that a stale FIXED booking can
   * commit for a slot row that no longer exists.
   */
  lemma UnguardedCancelBreaksFinality(now: int) returns (run: seq<Sys>, k: nat)
    requires now < UtcMs(TEN)
    ensures IsRun(run, RacyNext) && k + 2 < |run|
    ensures run[k].db == Pruned(Scheduled, now) && run[k + 1].db == Pruned(Cancelled, now)
    ensures run[k + 2].db == Dangling(now)
  {
    hide Read, Write, Offers, Dangling, UtcMs;
    var mine, theirs := ClaimFixed(0, Some(USER), 0, At(TEN)), ClaimFixed(1, Some(USER), 2, At(TEN));
    ReadsOnOffers(now);
    run := OffersAreReachable(now);
    run := Began(run, BookRequest(0, 0), now);
    run := Began(run, Cancel(1), now);
    run := Began(run, BookRequest(1, 2), now);
    SecondBooks(now);
    run := Finished(run, theirs, now);
    k := |run| - 1;
    assert Write(Pruned(Scheduled, now), Withdraw(1), now) == Ok(Pruned(Cancelled, now)) by { CancelOverwrites(now); }
    run := Finished(run, Withdraw(1), now);
    FirstBooks(now);
    run := Finished(run, mine, now);
  }

  lemma CancelOverwrites(now: int)
    ensures Write(Pruned(Scheduled, now), Withdraw(1), now) == Ok(Pruned(Cancelled, now))
  {
    hide UtcMs;
    var db := Pruned(Scheduled, now);
    assert Update(db, 1, db.interviews[1].(status := Cancelled)).interviews == Pruned(Cancelled, now).interviews;
  }

  // ---------------------------------------------------------------------------
  // What else the atomic steps are for
  // ---------------------------------------------------------------------------

  /** The same run leaves a confirmed interview without its slot. */
  lemma RacesBreakShape(now: int) returns (run: seq<Sys>)
    requires now < UtcMs(TEN)
    ensures IsRun(run, RacyNext) && exists k :: 0 <= k < |run| && !Shaped(run[k].db)
  {
    hide UtcMs, RacyNext, At;
    var k: nat;
    run, k := UnguardedCancelBreaksFinality(now);
    assert !Shaped(Dangling(now)) by { assert !ShapeOf(Dangling(now), 0); }
    assert !Shaped(run[k + 2].db);
  }

  /** One interview, for the first time, in slot 0. */
  function Single(status: Status, slotId: Option<nat>, at: Option<int>, now: int): Db {
    Db(map[0 := Row(status, slotId, at, now)], map[0 := Slot(0, At(TEN))], 1, 1)
  }

  /** Interview 0 is confirmed, and interview 1 offers the same time in slot 1. */
  function Overlapping(now: int): Db {
    Db(map[0 := Row(Scheduled, Some(0), Some(At(TEN).startsAt), now), 1 := Row(AwaitingCandidate, None, None, now)],
       map[0 := Slot(0, At(TEN)), 1 := Slot(1, At(TEN))], 2, 2)
  }

  lemma CreatesSingle(now: int)
    requires now < UtcMs(TEN)
    ensures Read(EMPTY, CreateRequest([WallString(TEN)]), now) == Ok(Insert(Row(AwaitingCandidate, None, None, now), [At(TEN)]))
    ensures Write(EMPTY, Insert(Row(AwaitingCandidate, None, None, now), [At(TEN)]), now) == Ok(Single(AwaitingCandidate, None, None, now))
    ensures Read(Single(AwaitingCandidate, None, None, now), BookRequest(0, 0), now) == Ok(ClaimFixed(0, Some(USER), 0, At(TEN)))
  {
    hide WallString, UtcMs, BuildSlots;
    BuiltPair();
    var row := Row(AwaitingCandidate, None, None, now);
    assert WriteInsert(EMPTY, row, [At(TEN)]).slots == Single(AwaitingCandidate, None, None, now).slots;
  }

  lemma SingleBooks(now: int)
    ensures Write(Single(AwaitingCandidate, None, None, now), ClaimFixed(0, Some(USER), 0, At(TEN)), now)
      == Ok(Single(Scheduled, Some(0), Some(At(TEN).startsAt), now))
  {
    hide At, RangesOverlap;
    var p := ClaimFixed(0, Some(USER), 0, At(TEN));
    var claimed := Claim(Single(AwaitingCandidate, None, None, now), p);
    assert claimed == Single(Scheduled, Some(0), Some(At(TEN).startsAt), now);
    assert !Clashes(claimed, USER, Some(0), At(TEN));
    assert SiblingSlots(claimed, USER, 0, At(TEN)) == {};
    assert DropSlots(claimed, {}).slots == claimed.slots;
    assert Prune(claimed, USER, 0, At(TEN), now).interviews == claimed.interviews;
  }

  lemma StaleInsertOverlaps(now: int)
    ensures Write(Single(Scheduled, Some(0), Some(At(TEN).startsAt), now), Insert(Row(AwaitingCandidate, None, None, now), [At(TEN)]), now)
      == Ok(Overlapping(now))
    ensures !OffersBookable(Overlapping(now))
  {
    hide UtcMs;
    var db := Single(Scheduled, Some(0), Some(At(TEN).startsAt), now);
    assert WriteInsert(db, Row(AwaitingCandidate, None, None, now), [At(TEN)]).slots == Overlapping(now).slots;
    OnlySlotZeroOverlaps();
    assert IsOffered(Overlapping(now), 1);
    assert IsBooking(Overlapping(now).interviews[0], USER) && Busy(Overlapping(now).interviews[0]) == At(TEN);
    assert !Bookable(Overlapping(now), 1);
  }

  /** An offer checked before a booking and written after it holds a slot that cannot be booked. */
  lemma RacesBreakOffers(now: int) returns (run: seq<Sys>)
    requires now < UtcMs(TEN)
    ensures IsRun(run, RacyNext) && !OffersBookable(run[|run| - 1].db)
  {
    hide Read, Write, Single, Overlapping, OffersBookable, UtcMs, WallString, At;
    CreatesSingle(now);
    SingleBooks(now);
    StaleInsertOverlaps(now);
    var p, q := Insert(Row(AwaitingCandidate, None, None, now), [At(TEN)]), ClaimFixed(0, Some(USER), 0, At(TEN));
    run := [INITIAL];
    run := Began(run, CreateRequest([WallString(TEN)]), now);
    run := Began(run, CreateRequest([WallString(TEN)]), now);
    run := Finished(run, p, now);
    run := Began(run, BookRequest(0, 0), now);
    run := Finished(run, q, now);
    run := Finished(run, p, now);
  }

  // ---------------------------------------------------------------------------
  // No bound on changes of status
  // ---------------------------------------------------------------------------

  /** Interview 0 waits for its manager, and `n` cancellations and `n` expiries of it have been read. */
  ghost predicate Loaded(s: Sys, n: nat) {
    0 in s.db.interviews && s.pending[Withdraw(0)] >= n && s.pending[Expire({0})] >= n
  }

  function Waiting(): Db {
    Db(map[0 := Row(AwaitingManager, None, None, 0)], map[], 1, 0)
  }

  const LATER := MANAGER_EXPIRE_AFTER_MS + 1

  function Ask(): Request {
    Create(Some(RequestManager), Some(USER), LENGTH, UTC, [])
  }

  lemma AsksManager()
    ensures Read(EMPTY, Ask(), 0) == Ok(Insert(Row(AwaitingManager, None, None, 0), []))
    ensures Write(EMPTY, Insert(Row(AwaitingManager, None, None, 0), []), 0) == Ok(Waiting())
    ensures Read(Waiting(), Cancel(0), LATER) == Ok(Withdraw(0))
    ensures Read(Waiting(), ExpireStale({}, {0}), LATER) == Ok(Expire({0}))
  {
    assert WriteInsert(EMPTY, Row(AwaitingManager, None, None, 0), []).slots == map[];
    assert IsUnanswered(Waiting().interviews[0], LATER);
    assert ReadExpireStale(Waiting(), {}, {0}, LATER).value.ids == {0};
  }

  lemma {:induction false} Loads(n: nat) returns (run: seq<Sys>)
    ensures IsRun(run, RacyNext) && run[|run| - 1].db == Waiting() && Loaded(run[|run| - 1], n)
    decreases n
  {
    hide Read, Write;
    AsksManager();
    if n == 0 {
      run := [INITIAL];
      run := Began(run, Ask(), 0);
      run := Finished(run, Insert(Row(AwaitingManager, None, None, 0), []), 0);
    } else {
      run := Loads(n - 1);
      run := Began(run, Cancel(0), LATER);
      run := Began(run, ExpireStale({}, {0}), LATER);
    }
  }

  lemma ChangesAdd(run: seq<Sys>, longer: seq<Sys>, id: nat)
    requires |longer| == |run| + 1 && longer[..|run|] == run && run != []
    requires id in run[|run| - 1].db.interviews && id in longer[|run|].db.interviews
    requires run[|run| - 1].db.interviews[id].status != longer[|run|].db.interviews[id].status
    ensures StatusChanges(longer, id) == StatusChanges(run, id) + 1
  {
    assert longer[|longer| - 2] == run[|run| - 1] && longer[..|longer| - 1] == run;
  }

  lemma WithdrawsAndExpires(db: Db)
    requires 0 in db.interviews
    ensures Write(db, Withdraw(0), 0) == Ok(Update(db, 0, db.interviews[0].(status := Cancelled)))
    ensures Write(db, Expire({0}), 0) == Ok(SetExpired(db, {0}))
    ensures 0 in SetExpired(db, {0}).interviews && SetExpired(db, {0}).interviews[0].status == Expired
  {
  }

  lemma {:induction false} Alternates(run: seq<Sys>, n: nat) returns (longer: seq<Sys>)
    requires IsRun(run, RacyNext) && Loaded(run[|run| - 1], n)
    requires run[|run| - 1].db.interviews[0].status != Cancelled
    ensures IsRun(longer, RacyNext) && StatusChanges(longer, 0) == StatusChanges(run, 0) + 2 * n
    decreases n
  {
    hide RacyNext, Write, SetExpired, StatusChanges;
    longer := run;
    if n > 0 {
      WithdrawsAndExpires(run[|run| - 1].db);
      var cancelled := Finished(run, Withdraw(0), 0);
      ChangesAdd(run, cancelled, 0);
      WithdrawsAndExpires(cancelled[|run|].db);
      var expired := Finished(cancelled, Expire({0}), 0);
      ChangesAdd(cancelled, expired, 0);
      longer := Alternates(expired, n - 1);
    }
  }

  /** With unguarded writes an interview can change its status as often as one likes. */
  lemma RacesUnboundChanges(n: nat) returns (run: seq<Sys>)
    ensures IsRun(run, RacyNext) && StatusChanges(run, 0) >= 2 * n
  {
    hide RacyNext, StatusChanges;
    var loaded := Loads(n);
    run := Alternates(loaded, n);
  }
}
