// Re-validation of a displayed LIVE time against the 60-day, 5-minute grid.
module LiveOffers {
  import opened Calendar
  import opened Text
  import opened Wrappers
  import opened Zones
  import opened SlotConflicts
  import opened Sorting
  import opened SlotEngine
  import opened GridFacts
  import opened GridOrder
  import opened Interviews
  import opened BookingSafety

  /** The options `resolveLiveSlot` uses in place of those of the displayed grid. */
  function Revalidation(o: Options): Options {
    o.(withinDays := LIVE_DAYS, step := LIVE_STEP)
  }

  lemma FinerGridOffersIt(s: Schedule, booked: seq<TimeRange>, o: Options, x: Candidate)
    requires GridInput(s, Revalidation(o)) && o.step > 0 && o.step % LIVE_STEP == 0 && o.withinDays <= LIVE_DAYS
    requires x in Flatten(SlotGrid(s, booked, o))
    ensures x in Flatten(SlotGrid(s, booked, Revalidation(o)))
  {
    hide SlotGrid, Flatten, InEra, Today, HasWindow, TwoPass, UtcToZonedWallTime, MinutesOf;
    assert GridInput(s, o) by { ShorterHorizon(o.now, o.withinDays); }
    GridIsExact(s, booked, o, x);
    var d: nat, w, k: nat :| StartsAt(s, o, d, w, k, x);
    var fine := k * (o.step / LIVE_STEP);
    assert fine * LIVE_STEP == k * o.step by { MultipleOfFive(k, o.step); }
    assert StartsAt(s, Revalidation(o), d, w, fine, x);
    GridIsExact(s, booked, Revalidation(o), x);
  }

  lemma ShorterHorizon(now: int, withinDays: nat)
    requires Horizon(now, LIVE_DAYS) && withinDays <= LIVE_DAYS
    ensures Horizon(now, withinDays)
  {
    hide DayFromYear;
  }

  lemma MultipleOfFive(k: nat, step: nat)
    requires step % LIVE_STEP == 0
    ensures k * (step / LIVE_STEP) * LIVE_STEP == k * step
  {
    assert step == LIVE_STEP * (step / LIVE_STEP);
    assert k * (step / LIVE_STEP) * LIVE_STEP == k * (LIVE_STEP * (step / LIVE_STEP));
  }

  ghost predicate UniqueWallTimes(cs: seq<Candidate>) {
    forall x, y :: x in cs && y in cs && x.start == y.start ==> x == y
  }

  /**
   * In the same state, a displayed slot whose step is a multiple of five is found
   * again by its wall time, and is the same slot when wall times are unique.
   */
  lemma ShownTimeIsFound(s: Schedule, booked: seq<TimeRange>, o: Options, x: Candidate)
    requires GridInput(s, Revalidation(o)) && o.step > 0 && o.step % LIVE_STEP == 0 && o.withinDays <= LIVE_DAYS
    requires x in Flatten(SlotGrid(s, booked, o))
    ensures var grid := SlotGrid(s, booked, Revalidation(o));
      var hit := FindStart(grid, x.start);
      hit.Some? && hit.value.start == x.start && (UniqueWallTimes(Flatten(grid)) ==> hit.value == x)
  {
    hide SlotGrid, Flatten, FindStart, GridInput;
    FinerGridOffersIt(s, booked, o, x);
    FoundInGrid(SlotGrid(s, booked, Revalidation(o)), x.start);
  }

  // ---------------------------------------------------------------------------
  // Which instant a repeated wall time books
  // ---------------------------------------------------------------------------

  ghost predicate Walled(cs: seq<Candidate>, z: Zone) {
    forall x :: x in cs ==> x.start == UtcToZonedWallTime(x.startUtc, z)
  }

  lemma SameWallSameDate(x: Candidate, y: Candidate, z: Zone)
    requires x.start == UtcToZonedWallTime(x.startUtc, z) && y.start == UtcToZonedWallTime(y.startUtc, z) && x.start == y.start
    ensures DateKey(CivilOfDay(LocalTime(z, x.startUtc) / MS_PER_DAY)) == DateKey(CivilOfDay(LocalTime(z, y.startUtc) / MS_PER_DAY))
  {
    hide DateKey, CivilOfDay, LocalTime, WallString;
    WallEndsInTime(FieldsOf(LocalTime(z, x.startUtc)));
    WallEndsInTime(FieldsOf(LocalTime(z, y.startUtc)));
  }

  lemma WallEndsInTime(n: Naive)
    requires 0 <= n.hour < 24 && 0 <= n.minute < 60
    ensures |WallString(n)| >= 6 && WallString(n)[..|WallString(n)| - 6] == DateKey(n.date)
  {
    hide DateKey, Pad;
    PadTwoDigits(n.hour);
    PadTwoDigits(n.minute);
  }

  lemma {:induction false} FirstInDay(slots: seq<Candidate>, start: string)
    requires Sorted(slots, SlotLess)
    ensures FindInDay(slots, start).Some? ==>
      forall y :: y in slots && y.start == start ==> FindInDay(slots, start).value.startUtc <= y.startUtc
    decreases |slots|
  {
    if slots != [] {
      assert forall j :: 0 <= j < |slots| - 1 ==> slots[1..][j] == slots[j + 1];
      FirstInDay(slots[1..], start);
      assert forall j :: 1 <= j < |slots| ==> !SlotLess(slots[j], slots[0]);
    }
  }

  lemma LaterDayDiffers(grid: seq<GridDay>, z: Zone, x: Candidate, y: Candidate)
    requires grid != [] && Partitioned(grid, z) && Walled(Flatten(grid), z) && x in grid[0].slots && y in Flatten(grid[1..])
    ensures x.start != y.start
  {
    hide DateKey, CivilOfDay, LocalTime, StringLess, UtcToZonedWallTime;
    var rest := grid[1..];
    FlattenMembers(rest);
    var i :| 0 <= i < |rest| && y in rest[i].slots;
    assert rest[i] == grid[i + 1] && StringLess(grid[0].date, grid[i + 1].date);
    StringOrderIsTotal(grid[0].date, grid[i + 1].date);
    assert x in Flatten(grid) && y in Flatten(grid);
    assert DateKey(CivilOfDay(LocalTime(z, x.startUtc) / MS_PER_DAY)) != DateKey(CivilOfDay(LocalTime(z, y.startUtc) / MS_PER_DAY));
    if x.start == y.start { SameWallSameDate(x, y, z); }
  }

  /** The slot found is the earliest of its wall time. */
  lemma {:induction false} FirstInGrid(grid: seq<GridDay>, z: Zone, start: string)
    requires Partitioned(grid, z) && Walled(Flatten(grid), z)
    ensures FindStart(grid, start).Some? ==>
      forall y :: y in Flatten(grid) && y.start == start ==> FindStart(grid, start).value.startUtc <= y.startUtc
    decreases |grid|
  {
    hide Partitioned, Sorted, FindInDay, UtcToZonedWallTime;
    if grid != [] {
      var first, rest := grid[0].slots, grid[1..];
      assert Flatten(grid) == first + Flatten(rest);
      RestIsPartitioned(grid, z);
      FirstInGrid(rest, z, start);
      assert Sorted(first, SlotLess) by { FirstIsSorted(grid, z); }
      FirstInDay(first, start);
      FoundInDay(first, start);
      var hit := FindInDay(first, start);
      if hit.Some? {
        forall y | y in Flatten(rest) ensures y.start != start {
          LaterDayDiffers(grid, z, hit.value, y);
        }
      }
    }
  }

  lemma FirstIsSorted(grid: seq<GridDay>, z: Zone)
    requires grid != [] && Partitioned(grid, z)
    ensures Sorted(grid[0].slots, SlotLess)
  {
  }

  lemma SlotIsItsStart(s: Schedule, booked: seq<TimeRange>, o: Options, x: Candidate)
    requires GridInput(s, o) && x in Flatten(SlotGrid(s, booked, o))
    ensures x == Candidate(UtcToZonedWallTime(x.startUtc, o.interviewZone), x.startUtc, x.startUtc + o.duration * MS_PER_MINUTE)
  {
    hide SlotGrid, Flatten, Today, HasWindow, TwoPass, UtcToZonedWallTime, MinutesOf, RangesOverlap;
    GridIsExact(s, booked, o, x);
  }

  /**
   * Booking by wall time takes a shown slot exactly when no earlier slot of the
   * re-validation grid has its wall time; otherwise it takes the earliest that has.
   */
  lemma ShownSlotIsBooked(s: Schedule, booked: seq<TimeRange>, o: Options, x: Candidate)
    requires GridInput(s, Revalidation(o)) && o.step > 0 && o.step % LIVE_STEP == 0 && o.withinDays <= LIVE_DAYS
    requires x in Flatten(SlotGrid(s, booked, o))
    ensures var grid := SlotGrid(s, booked, Revalidation(o));
      var hit := FindStart(grid, x.start);
      && hit.Some? && hit.value in Flatten(grid)
      && (hit.value == x <==> forall y :: y in Flatten(grid) && y.start == x.start ==> x.startUtc <= y.startUtc)
      && (forall y :: y in Flatten(grid) && y.start == x.start ==> hit.value.startUtc <= y.startUtc)
  {
    hide SlotGrid, Flatten, FindStart, GridInput, Partitioned, UtcToZonedWallTime;
    var fine := Revalidation(o);
    var grid := SlotGrid(s, booked, fine);
    FinerGridOffersIt(s, booked, o, x);
    FoundInGrid(grid, x.start);
    assert fine.step > 0;
    GridIsPartitioned(s, booked, fine);
    forall y | y in Flatten(grid) ensures y == Candidate(UtcToZonedWallTime(y.startUtc, fine.interviewZone), y.startUtc, y.startUtc + fine.duration * MS_PER_MINUTE) {
      SlotIsItsStart(s, booked, fine, y);
    }
    FirstInGrid(grid, fine.interviewZone, x.start);
  }

  // ---------------------------------------------------------------------------
  // Which steps can be displayed safely
  // ---------------------------------------------------------------------------

  ghost predicate NeverRejects(step: nat) {
    forall s, booked, o, x :: SafeDisplay(step, s, booked, o, x)
  }

  /** A slot displayed at `step` is found again. */
  ghost predicate SafeDisplay(step: nat, s: Schedule, booked: seq<TimeRange>, o: Options, x: Candidate) {
    (o.step == step && step > 0 && o.withinDays <= 60 && GridInput(s, Revalidation(o)) && x in Flatten(SlotGrid(s, booked, o)))
      ==> FindStart(SlotGrid(s, booked, Revalidation(o)), x.start).Some?
  }

  const NINE := "09:00"

  /** One override: a date two days after `today`, open from nine for `minutes` minutes. */
  function OneWindow(day: int, minutes: nat): Schedule
    requires minutes < 840
  {
    HHMMRoundTrip(540 + minutes);
    Schedule(UTC, [], [Override(day * MS_PER_DAY, true, Some(NINE), Some(MinutesToHHMM(540 + minutes)))])
  }

  /** A grid at `step` minutes over one window that holds exactly two starts. */
  function TwoStarts(day: int, step: nat): Options {
    Options(UTC, 10, 2, step, (day - 2) * MS_PER_DAY)
  }

  function SecondStart(day: int, step: nat): Candidate {
    var t := day * MS_PER_DAY + (540 + step) * MS_PER_MINUTE;
    Candidate(UtcToZonedWallTime(t, UTC), t, t + 10 * MS_PER_MINUTE)
  }

  lemma WindowsOfOverride(day: int, minutes: nat, other: int, w: Window)
    requires minutes < 840
    requires InEra(day * MS_PER_DAY) && InEra(other * MS_PER_DAY)
    ensures HasWindow(OneWindow(day, minutes), other, w)
      <==> other == day && MinutesOf(w.startTime) == 540 && MinutesOf(w.endTime) == 540 + minutes
  {
    hide DateKey, InEra, CivilLess, CivilOfDay, IsCivil;
    HHMMRoundTrip(540 + minutes);
    EraDay(day);
    EraDay(other);
    DateKeyAscends(CivilOfDay(day), CivilOfDay(other));
    CivilAscends(day, other);
    CivilAscends(other, day);
    var s := OneWindow(day, minutes);
    var key := DateKey(CivilOfDay(other));
    assert s.overrides[..0] == [];
    assert OverrideOn([], key) == None;
    assert DbDate(s.overrides[0].date) == CivilOfDay(day);
    assert OverrideOn(s.overrides, key) == if day == other then Some(s.overrides[0]) else None;
    assert MinutesOf(NINE) == 540;
    TimesAscend(w.startTime, NINE);
    TimesAscend(w.endTime, MinutesToHHMM(540 + minutes));
  }

  lemma EraDay(day: int)
    requires InEra(day * MS_PER_DAY)
    ensures FourDigitYear(CivilOfDay(day)) && FieldsOf(day * MS_PER_DAY).date == CivilOfDay(day)
    ensures IsCivil(CivilOfDay(day)) && (CivilLess(CivilOfDay(day), CivilOfDay(day)) == false)
  {
    hide DayFromYear, CivilOfDay, IsCivil;
    EraYears(day * MS_PER_DAY);
    assert day * MS_PER_DAY / MS_PER_DAY == day;
  }

  lemma InstantsInUtc(day: int, t: int)
    requires 0 <= t < 1440 && InEra(day * MS_PER_DAY + t * MS_PER_MINUTE)
    ensures var at := day * MS_PER_DAY + t * MS_PER_MINUTE;
      && TwoPass(at, UTC) == at
      && UtcToZonedWallTime(at, UTC) == WallString(Naive(FieldsOf(at).date, t / 60, t % 60, 0))
      && FieldsOf(at) == Naive(FieldsOf(at).date, t / 60, t % 60, 0)
  {
    hide DayFromYear, WallString, CivilOfDay, TwoPass;
    var at := day * MS_PER_DAY + t * MS_PER_MINUTE;
    FixedTwoPass(UTC, day, t);
    DivExact(day, t * MS_PER_MINUTE, MS_PER_DAY);
    ClockFields(t / 60, t % 60, 0);
    assert at % MS_PER_DAY == t / 60 * 3_600_000 + t % 60 * 60_000;
  }

  lemma DistinctWalls(day: int, t: int, u: int)
    requires 0 <= t < 1440 && 0 <= u < 1440
    requires InEra(day * MS_PER_DAY + t * MS_PER_MINUTE) && InEra(day * MS_PER_DAY + u * MS_PER_MINUTE)
    requires UtcToZonedWallTime(day * MS_PER_DAY + t * MS_PER_MINUTE, UTC) == UtcToZonedWallTime(day * MS_PER_DAY + u * MS_PER_MINUTE, UTC)
    ensures t == u
  {
    hide DayFromYear, WallString, FieldsOf, UtcToZonedWallTime, TwoPass;
    var a, b := day * MS_PER_DAY + t * MS_PER_MINUTE, day * MS_PER_DAY + u * MS_PER_MINUTE;
    InstantsInUtc(day, t);
    InstantsInUtc(day, u);
    EraYears(a);
    EraYears(b);
    WallStringsDiffer(FieldsOf(a), FieldsOf(b));
  }

  /** A day with room for the horizon on both sides. */
  ghost predicate MidEra(day: int) {
    forall d :: day - 10 <= d <= day + 100 ==> InEra(d * MS_PER_DAY) && InEra(d * MS_PER_DAY + MS_PER_DAY - 1)
  }

  lemma MidEraExists()
    ensures MidEra(DayFromYear(2030))
  {
    YearsAscend(1001, 2030);
    YearsAscend(2030, 9998);
  }

  lemma WitnessInput(day: int, step: nat)
    requires MidEra(day) && 5 <= step <= 60
    ensures var s, o := OneWindow(day, step + 10), TwoStarts(day, step);
      GridInput(s, o) && GridInput(s, Revalidation(o)) && Today(s, o.now) == day - 2
  {
    hide InEra, OneWindow;
    var s, o := OneWindow(day, step + 10), TwoStarts(day, step);
    assert s.zone == UTC by { WitnessZone(day, step); }
    assert ValidZone(UTC);
    assert o.now - 2 * MS_PER_DAY == (day - 4) * MS_PER_DAY;
    assert o.now + 5 * MS_PER_DAY == (day + 3) * MS_PER_DAY;
    assert o.now + 63 * MS_PER_DAY == (day + 61) * MS_PER_DAY;
  }

  lemma WitnessZone(day: int, step: nat)
    requires step <= 60
    ensures OneWindow(day, step + 10).zone == UTC
  {
  }

  lemma SecondStarts(day: int, step: nat, w: Window)
    requires MidEra(day) && 5 <= step <= 60
    requires MinutesOf(w.startTime) == 540 && MinutesOf(w.endTime) == 550 + step
    ensures StartsAt(OneWindow(day, step + 10), TwoStarts(day, step), 2, w, 1, SecondStart(day, step))
  {
    hide HasWindow, MinutesOf, UtcToZonedWallTime, TwoPass, Today, GridInput, InEra, OneWindow, WallString, FieldsOf;
    WitnessInput(day, step);
    WitnessZone(day, step);
    WindowsOfOverride(day, step + 10, day, w);
    EraMinute(day, 540 + step);
    InstantsInUtc(day, 540 + step);
  }

  lemma SecondIsShown(day: int, step: nat)
    requires MidEra(day) && 5 <= step <= 60
    ensures SecondStart(day, step) in Flatten(SlotGrid(OneWindow(day, step + 10), [], TwoStarts(day, step)))
  {
    hide SlotGrid, Flatten, StartsAt, GridInput, InEra, OneWindow, UtcToZonedWallTime, MinutesOf, MinutesToHHMM;
    WitnessInput(day, step);
    HHMMRoundTrip(550 + step);
    NineIsNine();
    SecondStarts(day, step, Window(NINE, MinutesToHHMM(550 + step)));
    GridIsExact(OneWindow(day, step + 10), [], TwoStarts(day, step), SecondStart(day, step));
  }

  lemma EraMinute(day: int, t: int)
    requires InEra(day * MS_PER_DAY) && InEra(day * MS_PER_DAY + MS_PER_DAY - 1) && 0 <= t < 1440
    ensures InEra(day * MS_PER_DAY + t * MS_PER_MINUTE)
  {
    hide DayFromYear;
  }

  /** Every start of the re-validation grid is a multiple of five minutes after nine. */
  lemma FineStarts(day: int, step: nat, y: Candidate) returns (k: nat)
    requires MidEra(day) && 5 <= step <= 60
    requires y in Flatten(SlotGrid(OneWindow(day, step + 10), [], Revalidation(TwoStarts(day, step))))
    ensures var t := 540 + k * LIVE_STEP;
      t < 1440 && y.start == UtcToZonedWallTime(day * MS_PER_DAY + t * MS_PER_MINUTE, UTC)
  {
    hide SlotGrid, Flatten, HasWindow, MinutesOf, UtcToZonedWallTime, TwoPass, Today, GridInput, InEra, OneWindow;
    var s, o := OneWindow(day, step + 10), Revalidation(TwoStarts(day, step));
    WitnessInput(day, step);
    GridIsExact(s, [], o, y);
    var d: nat, v, n: nat :| StartsAt(s, o, d, v, n, y);
    k := n;
    FineStart(day, step, d, v, n, y);
  }

  lemma FineStart(day: int, step: nat, d: nat, v: Window, k: nat, y: Candidate)
    requires MidEra(day) && 5 <= step <= 60
    requires StartsAt(OneWindow(day, step + 10), Revalidation(TwoStarts(day, step)), d, v, k, y)
    ensures var t := 540 + k * LIVE_STEP;
      t < 1440 && y.start == UtcToZonedWallTime(day * MS_PER_DAY + t * MS_PER_MINUTE, UTC)
  {
    hide HasWindow, MinutesOf, UtcToZonedWallTime, TwoPass, Today, GridInput, InEra, OneWindow, WallString, FieldsOf;
    WitnessInput(day, step);
    WitnessZone(day, step);
    WindowsOfOverride(day, step + 10, day - 2 + d, v);
    EraMinute(day, 540 + k * LIVE_STEP);
    InstantsInUtc(day, 540 + k * LIVE_STEP);
  }

  lemma StepBreaks(step: nat) returns (s: Schedule, o: Options, x: Candidate)
    requires 5 <= step <= 60 && step % LIVE_STEP != 0
    ensures !SafeDisplay(step, s, [], o, x)
  {
    hide SlotGrid, Flatten, UtcToZonedWallTime, FindStart, GridInput, InEra, OneWindow, DayFromYear;
    var day := DayFromYear(2030);
    MidEraExists();
    s, o, x := OneWindow(day, step + 10), TwoStarts(day, step), SecondStart(day, step);
    WitnessInput(day, step);
    SecondIsShown(day, step);
    var fine := SlotGrid(s, [], Revalidation(o));
    FoundInGrid(fine, x.start);
    if FindStart(fine, x.start).Some? {
      var k := FineStarts(day, step, FindStart(fine, x.start).value);
      var t := 540 + k * LIVE_STEP;
      EraMinute(day, t);
      EraMinute(day, 540 + step);
      DistinctWalls(day, t, 540 + step);
      assert false;
    }
  }

  lemma NineIsNine()
    ensures MinutesOf(NINE) == 540
  {
  }

  /**
   * The promise that re-validation never rejects a displayed time holds for
   * exactly the steps that are multiples of five; the others that a query may
   * ask for, such as seven, display times that cannot be booked.
   */
  lemma RevalidationIsSafeForMultiplesOfFive(step: nat)
    requires 5 <= step <= 60
    ensures NeverRejects(step) <==> step % 5 == 0
  {
    hide SafeDisplay;
    if step % LIVE_STEP == 0 {
      forall s, booked, o, x ensures SafeDisplay(step, s, booked, o, x) {
        MultiplesAreSafe(step, s, booked, o, x);
      }
    } else {
      var s, o, x := StepBreaks(step);
    }
  }

  lemma MultiplesAreSafe(step: nat, s: Schedule, booked: seq<TimeRange>, o: Options, x: Candidate)
    requires step % LIVE_STEP == 0
    ensures SafeDisplay(step, s, booked, o, x)
  {
    hide SlotGrid, Flatten, FindStart, GridInput;
    if o.step == step && step > 0 && o.withinDays <= LIVE_DAYS && GridInput(s, Revalidation(o)) && x in Flatten(SlotGrid(s, booked, o)) {
      ShownTimeIsFound(s, booked, o, x);
    }
  }

  // ---------------------------------------------------------------------------
  // A wall time that a zone repeats
  // ---------------------------------------------------------------------------

  /** One hour ahead of UTC until half past nine of the day, then level with it. */
  function FallBack(day: int): Zone {
    Zone(HOUR, [Shift(day * MS_PER_DAY + 570 * MS_PER_MINUTE, 0)])
  }

  function SlotAt(z: Zone, t: int): Candidate {
    Candidate(UtcToZonedWallTime(t, z), t, t + 10 * MS_PER_MINUTE)
  }

  lemma FallBackRepeats(day: int)
    ensures ValidZone(FallBack(day))
    ensures var nine := day * MS_PER_DAY + 540 * MS_PER_MINUTE;
      SlotAt(FallBack(day), nine).start == SlotAt(FallBack(day), nine + HOUR).start
  {
    hide WallString, FieldsOf;
    var z, nine := FallBack(day), day * MS_PER_DAY + 540 * MS_PER_MINUTE;
    assert OffsetAt(Zone(0, []), nine + HOUR) == 0 && z.shifts[1..] == [];
    assert LocalTime(z, nine) == nine + HOUR == LocalTime(z, nine + HOUR);
  }

  lemma HourSlotStarts(day: int, w: Window, o: Options, k: nat)
    requires MidEra(day) && MinutesOf(w.startTime) == 540 && MinutesOf(w.endTime) == 610
    requires o.duration == 10 && o.withinDays >= 2 && o.now == (day - 2) * MS_PER_DAY && (k * o.step == 0 || k * o.step == 60)
    ensures StartsAt(OneWindow(day, 70), o, 2, w, k, SlotAt(o.interviewZone, day * MS_PER_DAY + (540 + k * o.step) * MS_PER_MINUTE))
  {
    hide HasWindow, MinutesOf, UtcToZonedWallTime, TwoPass, Today, GridInput, InEra, OneWindow, WallString, FieldsOf;
    WitnessInput(day, 60);
    WitnessZone(day, 60);
    WindowsOfOverride(day, 70, day, w);
    EraMinute(day, 540 + k * o.step);
    InstantsInUtc(day, 540 + k * o.step);
  }

  lemma HourSlotIsOffered(day: int, o: Options, k: nat)
    requires MidEra(day) && o == Options(FallBack(day), 10, o.withinDays, o.step, (day - 2) * MS_PER_DAY)
    requires (o.withinDays == 2 && o.step == 60 && k <= 1) || (o.withinDays == LIVE_DAYS && o.step == LIVE_STEP && (k == 0 || k == 12))
    ensures GridInput(OneWindow(day, 70), o)
    ensures SlotAt(FallBack(day), day * MS_PER_DAY + (540 + k * o.step) * MS_PER_MINUTE) in Flatten(SlotGrid(OneWindow(day, 70), [], o))
  {
    hide SlotGrid, Flatten, StartsAt, InEra, OneWindow, UtcToZonedWallTime, MinutesOf, MinutesToHHMM, Horizon;
    WitnessInput(day, 60);
    FallBackRepeats(day);
    HHMMRoundTrip(610);
    NineIsNine();
    HourSlotStarts(day, Window(NINE, MinutesToHHMM(610)), o, k);
    GridIsExact(OneWindow(day, 70), [], o, SlotAt(FallBack(day), day * MS_PER_DAY + (540 + k * o.step) * MS_PER_MINUTE));
  }

  /**
   * In a zone that falls back, a candidate who picks the second of two slots shown
   * under one wall time is booked for the first, an hour earlier.
   */
  lemma RepeatedTimeBooksEarlier() returns (s: Schedule, o: Options, x: Candidate)
    ensures GridInput(s, Revalidation(o)) && o.step == 60 && x in Flatten(SlotGrid(s, [], o))
    ensures var hit := FindStart(SlotGrid(s, [], Revalidation(o)), x.start);
      hit.Some? && hit.value.start == x.start && hit.value.startUtc <= x.startUtc - HOUR
  {
    hide SlotGrid, Flatten, FindStart, GridInput, InEra, OneWindow, UtcToZonedWallTime, DayFromYear;
    var day := DayFromYear(2030);
    MidEraExists();
    var nine := day * MS_PER_DAY + 540 * MS_PER_MINUTE;
    s, o := OneWindow(day, 70), Options(FallBack(day), 10, 2, 60, (day - 2) * MS_PER_DAY);
    x := SlotAt(FallBack(day), nine + HOUR);
    HourSlotIsOffered(day, o, 1);
    HourSlotIsOffered(day, Revalidation(o), 0);
    FallBackRepeats(day);
    ShownSlotIsBooked(s, [], o, x);
    FoundInGrid(SlotGrid(s, [], Revalidation(o)), x.start);
  }
}
