// The order of the slot grid, its partition into days, and the suggestions cut from it.
module GridOrder {
  import opened Calendar
  import opened Text
  import opened Zones
  import opened SlotConflicts
  import opened Sorting
  import opened SlotEngine
  import opened GridFacts

  lemma KeyLessOrders()
    ensures Orders(KeyLess)
  {
    forall a, b | KeyLess(a, b) ensures !KeyLess(b, a) {
      StringOrderIsTotal(a, b);
    }
    forall a, b, c | !KeyLess(b, a) && !KeyLess(c, b) ensures !KeyLess(c, a) {
      StringOrderIsTotal(a, b);
      StringOrderIsTotal(b, c);
      StringOrderIsTotal(a, c);
      if a != b && b != c { StringOrderIsTransitive(a, b, c); }
    }
  }

  lemma SlotLessOrders()
    ensures Orders(SlotLess)
  {
  }

  lemma BucketMembers(cs: seq<Candidate>, z: Zone, key: string, x: Candidate)
    ensures x in InBucket(cs, z, key) <==> x in cs && BucketKey(x, z) == key
  {
    hide BucketKey, InBucket;
    BucketCounts(cs, z, key, x);
    assert x in InBucket(cs, z, key) <==> x in multiset(InBucket(cs, z, key));
    assert x in cs <==> x in multiset(cs);
  }

  lemma {:induction false} DaysAreBuckets(keys: seq<string>, b: Buckets)
    requires forall k :: k in keys ==> k in b.slots
    ensures var days := DaysOf(keys, b.slots);
      && |days| == |keys|
      && forall i :: 0 <= i < |keys| ==> days[i] == GridDay(keys[i], Sort(b.slots[keys[i]], SlotLess))
    decreases |keys|
  {
    if keys != [] {
      DaysAreBuckets(keys[1..], b);
    }
  }

  // ---------------------------------------------------------------------------
  // Partition by civil date
  // ---------------------------------------------------------------------------

  /** Ascending dates, no empty day, and every slot under its civil date in zone `z`, in order. */
  ghost predicate Partitioned(grid: seq<GridDay>, z: Zone) {
    && (forall i, j :: 0 <= i < j < |grid| ==> StringLess(grid[i].date, grid[j].date))
    && (forall i :: 0 <= i < |grid| ==> grid[i].slots != [] && Sorted(grid[i].slots, SlotLess))
    && (forall i, x :: 0 <= i < |grid| && x in grid[i].slots ==> grid[i].date == DateKey(CivilOfDay(LocalTime(z, x.startUtc) / MS_PER_DAY)))
  }

  lemma BucketIsLocalDay(x: Candidate, z: Zone)
    ensures BucketKey(x, z) == DateKey(CivilOfDay(LocalTime(z, x.startUtc) / MS_PER_DAY))
  {
    hide DateKey, CivilOfDay, OffsetAt;
  }

  lemma KeysAscend(order: seq<string>)
    requires Distinct(order)
    ensures forall i, j :: 0 <= i < j < |Sort(order, KeyLess)| ==> StringLess(Sort(order, KeyLess)[i], Sort(order, KeyLess)[j])
  {
    hide StringLess, Sort;
    var keys := Sort(order, KeyLess);
    SortKeepsDistinct(order, KeyLess);
    KeyLessOrders();
    SortSorts(order, KeyLess);
    forall i, j | 0 <= i < j < |keys| ensures StringLess(keys[i], keys[j]) {
      StringOrderIsTotal(keys[i], keys[j]);
      assert !KeyLess(keys[j], keys[i]);
    }
  }

  lemma GridIsPartitioned(s: Schedule, booked: seq<TimeRange>, o: Options)
    requires o.step > 0
    ensures Partitioned(SlotGrid(s, booked, o), o.interviewZone)
  {
    hide FromDay, Bucketize, BucketKey, StringLess, Sort, Sorted, DateKey, CivilOfDay, LocalTime;
    var cs, z := FromDay(s, booked, o, 0), o.interviewZone;
    var b := Bucketize(cs, z);
    BucketizeIsWellKeyed(cs, z);
    BucketsHold(cs, z);
    var keys := Sort(b.order, KeyLess);
    SortKeepsMembers(b.order, KeyLess);
    KeysAscend(b.order);
    KeyLessOrders();
    DaysAreBuckets(keys, b);
    var grid := SlotGrid(s, booked, o);
    assert grid == DaysOf(keys, b.slots);
    forall i | 0 <= i < |keys|
      ensures Sorted(Sort(b.slots[keys[i]], SlotLess), SlotLess) && Sort(b.slots[keys[i]], SlotLess) != []
    {
      SlotLessOrders();
      SortSorts(b.slots[keys[i]], SlotLess);
      SortPermutes(b.slots[keys[i]], SlotLess);
    }
    forall i, x | 0 <= i < |keys| && x in Sort(b.slots[keys[i]], SlotLess)
      ensures keys[i] == DateKey(CivilOfDay(LocalTime(z, x.startUtc) / MS_PER_DAY))
    {
      SortKeepsMembers(b.slots[keys[i]], SlotLess);
      BucketMembers(cs, z, keys[i], x);
      BucketIsLocalDay(x, z);
    }
    forall i, j | 0 <= i < j < |grid| ensures StringLess(grid[i].date, grid[j].date) {
      assert grid[i].date == keys[i] && grid[j].date == keys[j];
      assert StringLess(keys[i], keys[j]);
    }
  }

  // ---------------------------------------------------------------------------
  // Time order across days
  // ---------------------------------------------------------------------------

  /** The zone's civil date never moves backwards. */
  ghost predicate DatesNeverGoBack(z: Zone) {
    forall t, u :: t <= u ==> LocalTime(z, t) / MS_PER_DAY <= LocalTime(z, u) / MS_PER_DAY
  }

  ghost predicate Chronological(cs: seq<Candidate>) {
    forall i, j :: 0 <= i < j < |cs| ==> cs[i].startUtc <= cs[j].startUtc
  }

  lemma OfferedInEra(s: Schedule, booked: seq<TimeRange>, o: Options, x: Candidate)
    requires GridInput(s, o) && Offered(s, booked, o, x)
    ensures InEra(x.startUtc)
  {
    hide Today, HasWindow, TwoPass, UtcToZonedWallTime, RangesOverlap, MinutesOf, DayFromYear, ValidZone;
    var d: nat, w, k: nat :| StartsAt(s, o, d, w, k, x);
    var minute := MinutesOf(w.startTime) + k * o.step;
    var wall := (Today(s, o.now) + d) * MS_PER_DAY + minute * MS_PER_MINUTE;
    TodayBounds(s, o.now);
    assert k * o.step >= 0;
    assert 0 <= minute < 1440;
    WholeMinutes(Today(s, o.now) + d, minute);
    TwoPassReadsOffsets(wall, s.zone);
  }

  lemma WholeMinutes(day: int, minute: int)
    ensures (day * MS_PER_DAY + minute * MS_PER_MINUTE) % 1000 == 0
  {
    assert day * MS_PER_DAY + minute * MS_PER_MINUTE == 1000 * (day * 86_400 + minute * 60);
  }

  lemma KeysFollowTime(z: Zone, x: Candidate, y: Candidate)
    requires ValidZone(z) && DatesNeverGoBack(z) && InEra(x.startUtc) && InEra(y.startUtc)
    requires StringLess(DateKey(CivilOfDay(LocalTime(z, x.startUtc) / MS_PER_DAY)), DateKey(CivilOfDay(LocalTime(z, y.startUtc) / MS_PER_DAY)))
    ensures x.startUtc < y.startUtc
  {
    hide DayFromYear, StringLess, DateKey, OffsetAt, FieldsOf, CivilOfDay, CivilLess, IsCivil;
    var t, u := LocalTime(z, x.startUtc), LocalTime(z, y.startUtc);
    OffsetIsOffset(z, x.startUtc);
    OffsetIsOffset(z, y.startUtc);
    EraYears(t);
    EraYears(u);
    DayOfFields(t);
    DayOfFields(u);
    DateKeyAscends(CivilOfDay(t / MS_PER_DAY), CivilOfDay(u / MS_PER_DAY));
    CivilAscends(t / MS_PER_DAY, u / MS_PER_DAY);
  }

  lemma {:induction false} FlattenMembers(grid: seq<GridDay>)
    ensures forall x :: x in Flatten(grid) <==> exists i :: 0 <= i < |grid| && x in grid[i].slots
    decreases |grid|
  {
    if grid != [] {
      FlattenMembers(grid[1..]);
      assert grid == [grid[0]] + grid[1..];
    }
  }

  lemma DayPrecedesRest(grid: seq<GridDay>, z: Zone, x: Candidate, y: Candidate)
    requires grid != [] && ValidZone(z) && DatesNeverGoBack(z) && Partitioned(grid, z)
    requires x in grid[0].slots && y in Flatten(grid[1..]) && InEra(x.startUtc) && InEra(y.startUtc)
    ensures x.startUtc < y.startUtc
  {
    hide ValidZone, DatesNeverGoBack, DateKey, CivilOfDay, LocalTime, StringLess, InEra;
    var rest := grid[1..];
    FlattenMembers(rest);
    var i :| 0 <= i < |rest| && y in rest[i].slots;
    assert y in grid[i + 1].slots;
    KeysFollowTime(z, x, y);
  }

  lemma RestIsPartitioned(grid: seq<GridDay>, z: Zone)
    requires grid != [] && Partitioned(grid, z)
    ensures Partitioned(grid[1..], z) && Chronological(grid[0].slots)
  {
    hide DateKey, CivilOfDay, LocalTime, StringLess;
    var rest, first := grid[1..], grid[0].slots;
    assert forall i :: 0 <= i < |rest| ==> rest[i] == grid[i + 1];
    assert forall i, j :: 0 <= i < j < |first| ==> !SlotLess(first[j], first[i]);
  }

  lemma ChronologicalJoin(a: seq<Candidate>, b: seq<Candidate>)
    requires Chronological(a) && Chronological(b)
    requires forall x, y :: x in a && y in b ==> x.startUtc < y.startUtc
    ensures Chronological(a + b)
  {
  }

  lemma {:induction false} FlattenAscends(grid: seq<GridDay>, z: Zone)
    requires ValidZone(z) && DatesNeverGoBack(z) && Partitioned(grid, z)
    requires forall x :: x in Flatten(grid) ==> InEra(x.startUtc)
    ensures Chronological(Flatten(grid))
    decreases |grid|
  {
    hide ValidZone, DatesNeverGoBack, Partitioned, InEra, Chronological;
    if grid == [] {
      assert Chronological([]) by { NothingIsChronological(); }
    } else {
      var first, rest := grid[0].slots, grid[1..];
      assert Flatten(grid) == first + Flatten(rest);
      RestIsPartitioned(grid, z);
      FlattenAscends(rest, z);
      forall x, y | x in first && y in Flatten(rest) ensures x.startUtc < y.startUtc {
        DayPrecedesRest(grid, z, x, y);
      }
      ChronologicalJoin(first, Flatten(rest));
    }
  }

  lemma NothingIsChronological()
    ensures Chronological([])
  {
  }

  /**
   * Every slot stands under its local date, which its wall time starts with, and two
   * slots stand under one day exactly when their local day numbers are equal.
   */
  lemma SlotsStandUnderTheirDay(s: Schedule, booked: seq<TimeRange>, o: Options, i: nat, x: Candidate, j: nat, y: Candidate)
    requires GridInput(s, o)
    requires var grid := SlotGrid(s, booked, o); i < |grid| && j < |grid| && x in grid[i].slots && y in grid[j].slots
    ensures |x.start| == 16 && SlotGrid(s, booked, o)[i].date == x.start[..10]
    ensures i == j <==> LocalTime(o.interviewZone, x.startUtc) / MS_PER_DAY == LocalTime(o.interviewZone, y.startUtc) / MS_PER_DAY
  {
    hide SlotGrid, Flatten, Offered, InEra, DateKey, CivilOfDay, LocalTime, StringLess, IsCivil;
    var grid, z := SlotGrid(s, booked, o), o.interviewZone;
    assert o.step > 0;
    GridIsPartitioned(s, booked, o);
    FlattenMembers(grid);
    SlotIsInEra(s, booked, o, x);
    var a, b := LocalTime(z, x.startUtc) / MS_PER_DAY, LocalTime(z, y.startUtc) / MS_PER_DAY;
    if i != j {
      StringOrderIsTotal(grid[i].date, grid[j].date);
      assert grid[i].date != grid[j].date;
    }
    if i == j {
      DateKeysDiffer(CivilOfDay(a), CivilOfDay(b));
      CivilAscends(a, b);
      CivilAscends(b, a);
      NotBeforeItself(CivilOfDay(a));
    }
  }

  lemma NotBeforeItself(c: CivilDate)
    ensures !CivilLess(c, c)
  {
  }

  lemma SlotIsInEra(s: Schedule, booked: seq<TimeRange>, o: Options, x: Candidate)
    requires GridInput(s, o) && x in Flatten(SlotGrid(s, booked, o))
    ensures |x.start| == 16 && x.start[..10] == DateKey(CivilOfDay(LocalTime(o.interviewZone, x.startUtc) / MS_PER_DAY))
  {
    hide SlotGrid, Flatten, Today, HasWindow, TwoPass, RangesOverlap, MinutesOf, InEra, OffsetAt, DayFromYear, CivilOfDay, WallString, DateKey, IsCivil;
    GridIsExact(s, booked, o, x);
    OfferedInEra(s, booked, o, x);
    var t := LocalTime(o.interviewZone, x.startUtc);
    OffsetIsOffset(o.interviewZone, x.startUtc);
    EraYears(t) by { InEraBounds(x.startUtc); }
    WallStartsWithDate(FieldsOf(t));
  }

  lemma InEraBounds(t: int)
    requires InEra(t)
    ensures FIRST_INSTANT <= t < LAST_INSTANT
  {
  }

  lemma WallStartsWithDate(n: Naive)
    requires IsCivil(n.date) && FourDigitYear(n.date) && 0 <= n.hour < 24 && 0 <= n.minute < 60
    ensures |WallString(n)| == 16 && WallString(n)[..10] == DateKey(n.date)
  {
    hide NumberString, Pad;
    YearAscends(n.date.year, n.date.year);
    MonthAndDayPads(n.date);
    PadTwoDigits(n.hour);
    PadTwoDigits(n.minute);
  }

  /** If the interview zone's date never moves backwards, the days run together in time order. */
  lemma GridAscends(s: Schedule, booked: seq<TimeRange>, o: Options)
    requires GridInput(s, o) && DatesNeverGoBack(o.interviewZone)
    ensures Chronological(Flatten(SlotGrid(s, booked, o)))
  {
    hide Flatten, SlotGrid, Offered, InEra, Partitioned, DatesNeverGoBack, ValidZone, Horizon;
    GridIsPartitioned(s, booked, o);
    forall x | x in Flatten(SlotGrid(s, booked, o)) ensures InEra(x.startUtc) {
      GridIsExact(s, booked, o, x);
      OfferedInEra(s, booked, o, x);
    }
    FlattenAscends(SlotGrid(s, booked, o), o.interviewZone);
  }

  // ---------------------------------------------------------------------------
  // Suggestions
  // ---------------------------------------------------------------------------

  const SUGGESTION_STEP := 30

  function StartsOf(cs: seq<Candidate>): (r: seq<string>)
    ensures |r| == |cs| && forall i :: 0 <= i < |r| ==> r[i] == cs[i].start
  {
    if cs == [] then [] else [cs[0].start] + StartsOf(cs[1..])
  }

  function SuggestSlots(s: Schedule, booked: seq<TimeRange>, o: Options, count: nat): seq<string> {
    var starts := StartsOf(Flatten(SlotGrid(s, booked, o.(step := SUGGESTION_STEP))));
    if count < |starts| then starts[..count] else starts
  }

  /** The suggestions are the starts of the earliest `count` slots of the half-hour grid. */
  lemma SuggestionsAreEarliest(s: Schedule, booked: seq<TimeRange>, o: Options, count: nat)
    returns (chosen: seq<Candidate>, left: seq<Candidate>)
    requires GridInput(s, o) && DatesNeverGoBack(o.interviewZone)
    ensures SuggestSlots(s, booked, o, count) == StartsOf(chosen)
    ensures multiset(chosen + left) == multiset(Flatten(SlotGrid(s, booked, o.(step := 30))))
    ensures forall x :: x in chosen + left <==> Offered(s, booked, o.(step := 30), x)
    ensures |chosen| <= count && (left != [] ==> |chosen| == count)
    ensures Chronological(chosen) && forall c, l :: c in chosen && l in left ==> c.startUtc <= l.startUtc
  {
    hide Flatten, SlotGrid, FromDay, Offered, DatesNeverGoBack, ValidZone, Horizon;
    var grid := SlotGrid(s, booked, o.(step := SUGGESTION_STEP));
    forall x ensures x in Flatten(grid) <==> Offered(s, booked, o.(step := 30), x) {
      GridIsExact(s, booked, o.(step := 30), x);
    }
    GridAscends(s, booked, o.(step := SUGGESTION_STEP));
    var all := Flatten(grid);
    var n := if count < |all| then count else |all|;
    chosen, left := all[..n], all[n..];
    assert chosen + left == all;
    assert StartsOf(chosen) == StartsOf(all)[..n];
    assert StartsOf(all)[..|all|] == StartsOf(all);
  }

  // ---------------------------------------------------------------------------
  // No start twice
  // ---------------------------------------------------------------------------

  predicate RangesApart(a: Rule, b: Rule) {
    MinutesOf(a.endTime) <= MinutesOf(b.startTime) || MinutesOf(b.endTime) <= MinutesOf(a.startTime)
  }

  /** Every rule starts before it ends, and the rules of a day are pairwise disjoint. */
  ghost predicate ValidRules(rules: seq<Rule>) {
    && (forall i :: 0 <= i < |rules| ==> MinutesOf(rules[i].startTime) < MinutesOf(rules[i].endTime))
    && (forall i, j :: 0 <= i < j < |rules| && rules[i].dayOfWeek == rules[j].dayOfWeek ==> RangesApart(rules[i], rules[j]))
  }

  ghost predicate Ascending(cs: seq<Candidate>) {
    forall i, j :: 0 <= i < j < |cs| ==> cs[i].startUtc < cs[j].startUtc
  }

  ghost predicate Between(cs: seq<Candidate>, lo: int, hi: int) {
    forall i :: 0 <= i < |cs| ==> lo <= cs[i].startUtc < hi
  }

  lemma AscendingJoin(a: seq<Candidate>, b: seq<Candidate>, lo: int, mid: int, hi: int)
    requires Ascending(a) && Ascending(b) && Between(a, lo, mid) && Between(b, mid, hi) && lo <= mid <= hi
    ensures Ascending(a + b) && Between(a + b, lo, hi)
  {
  }

  /** The instant of minute `t` on day number `day` in a zone that never shifts. */
  function FixedInstant(z: Zone, day: int, t: int): int {
    day * MS_PER_DAY + t * MS_PER_MINUTE - z.base
  }

  lemma FixedCandidate(s: Schedule, o: Options, d: nat, t: int)
    requires GridInput(s, o) && s.zone.shifts == [] && d <= o.withinDays && 0 <= t < 1440
    ensures var c := CandidateAt(s, o, DateAt(s, o.now, d), t);
      c.Some? && c.value.startUtc == FixedInstant(s.zone, Today(s, o.now) + d, t)
  {
    hide DateAt, Today, TwoPass, UtcToZonedWallTime, ZonedWallTimeToUtc, WallAt, DayFromYear;
    WallIsReadable(s, o, d, t);
    TodayBounds(s, o.now);
    FixedTwoPass(s.zone, Today(s, o.now) + d, t);
  }

  lemma FixedTwoPass(z: Zone, day: int, t: int)
    requires ValidZone(z) && z.shifts == [] && InEra(day * MS_PER_DAY + t * MS_PER_MINUTE)
    ensures TwoPass(day * MS_PER_DAY + t * MS_PER_MINUTE, z) == FixedInstant(z, day, t)
  {
    hide TwoPass, DayFromYear, InEra;
    var wall := day * MS_PER_DAY + t * MS_PER_MINUTE;
    assert wall % 1000 == 0 by { DivExact(day * 86_400 + t * 60, 0, 1000); }
    TwoPassReadsOffsets(wall, z);
    assert OffsetAt(z, wall) == z.base && OffsetAt(z, wall - z.base) == z.base;
  }

  lemma {:induction false} MinutesAscend(s: Schedule, booked: seq<TimeRange>, o: Options, d: nat, t: int, windowEnd: int)
    requires GridInput(s, o) && s.zone.shifts == [] && d <= o.withinDays && o.duration > 0
    requires 0 <= t && windowEnd < 1440
    ensures var cs := FromMinute(s, booked, o, DateAt(s, o.now, d), t, windowEnd);
      var day := Today(s, o.now) + d;
      Ascending(cs) && Between(cs, FixedInstant(s.zone, day, t), FixedInstant(s.zone, day, if t <= windowEnd then windowEnd else t))
    decreases windowEnd - t
  {
    hide DateAt, Today, CandidateAt, IsOpen, GridInput;
    if t + o.duration <= windowEnd {
      assert o.step > 0 by { StepIsPositive(s, o); }
      MinutesAscend(s, booked, o, d, t + o.step, windowEnd);
      FixedCandidate(s, o, d, t);
      var date, day := DateAt(s, o.now, d), Today(s, o.now) + d;
      var rest := FromMinute(s, booked, o, date, t + o.step, windowEnd);
      assert Between(rest, FixedInstant(s.zone, day, t + 1), FixedInstant(s.zone, day, windowEnd)) by {
        if t + o.step > windowEnd { assert rest == []; }
      }
      AscendingJoin(Keep(CandidateAt(s, o, date, t), booked, o.now), rest, FixedInstant(s.zone, day, t),
        FixedInstant(s.zone, day, t + 1), FixedInstant(s.zone, day, windowEnd));
    }
  }

  lemma StepIsPositive(s: Schedule, o: Options)
    requires GridInput(s, o)
    ensures o.step > 0
  {
  }

  /** Windows in time order, one after the other. */
  ghost predicate InSequence(windows: seq<Window>) {
    forall i, j :: 0 <= i < j < |windows| ==> MinutesOf(windows[i].endTime) <= MinutesOf(windows[j].startTime)
  }

  lemma {:induction false} WindowsAscend(s: Schedule, booked: seq<TimeRange>, o: Options, d: nat, windows: seq<Window>, from: int)
    requires GridInput(s, o) && s.zone.shifts == [] && d <= o.withinDays && o.duration > 0
    requires InSequence(windows) && 0 <= from <= 1440
    requires forall i :: 0 <= i < |windows| ==> from <= MinutesOf(windows[i].startTime)
    ensures var cs := FromWindows(s, booked, o, DateAt(s, o.now, d), windows);
      var day := Today(s, o.now) + d;
      Ascending(cs) && Between(cs, FixedInstant(s.zone, day, from), FixedInstant(s.zone, day, 1440))
    decreases |windows|
  {
    hide DateAt, Today, FromMinute, GridInput, MinutesOf;
    if windows != [] {
      StepIsPositive(s, o);
      var a, b := MinutesOf(windows[0].startTime), MinutesOf(windows[0].endTime);
      MinutesAscend(s, booked, o, d, a, b);
      var day := Today(s, o.now) + d;
      var head := FromMinute(s, booked, o, DateAt(s, o.now, d), a, b);
      if a < b {
        WindowsAscend(s, booked, o, d, windows[1..], b);
        AscendingJoin(head, FromWindows(s, booked, o, DateAt(s, o.now, d), windows[1..]),
          FixedInstant(s.zone, day, from), FixedInstant(s.zone, day, b), FixedInstant(s.zone, day, 1440));
      } else {
        WindowsAscend(s, booked, o, d, windows[1..], from);
        EmptyWindow(s, booked, o, d, a, b);
      }
    }
  }

  lemma EmptyWindow(s: Schedule, booked: seq<TimeRange>, o: Options, d: nat, a: int, b: int)
    requires o.step > 0 && b <= a && o.duration > 0
    ensures FromMinute(s, booked, o, DateAt(s, o.now, d), a, b) == []
  {
  }

  lemma ValidRulesAreInSequence(rules: seq<Rule>, dayOfWeek: int)
    requires ValidRules(rules)
    ensures InSequence(RuleWindows(Sort(RulesOn(rules, dayOfWeek), RuleLess)))
  {
    hide MinutesOf, StringLess;
    var day := RulesOn(rules, dayOfWeek);
    var sorted := Sort(day, RuleLess);
    RulesOnAreDistinct(rules, dayOfWeek);
    SortKeepsDistinct(day, RuleLess);
    SortKeepsMembers(day, RuleLess);
    RuleLessOrders();
    SortSorts(day, RuleLess);
    forall i, j | 0 <= i < j < |sorted| ensures MinutesOf(sorted[i].endTime) <= MinutesOf(sorted[j].startTime) {
      var a, b := sorted[i], sorted[j];
      assert a in rules && b in rules && a != b && a.dayOfWeek == b.dayOfWeek;
      assert !RuleLess(b, a);
      TimesAscend(b.startTime, a.startTime);
      assert RangesApart(a, b) || RangesApart(b, a);
    }
  }

  lemma RuleLessOrders()
    ensures Orders(RuleLess)
  {
    hide StringLess, MinutesOf;
    forall a: Rule, b: Rule ensures RuleLess(a, b) <==> MinutesOf(a.startTime) < MinutesOf(b.startTime) {
      TimesAscend(a.startTime, b.startTime);
    }
  }

  lemma {:induction false} RulesOnAreDistinct(rules: seq<Rule>, dayOfWeek: int)
    requires ValidRules(rules)
    ensures Distinct(RulesOn(rules, dayOfWeek))
    decreases |rules|
  {
    hide MinutesOf;
    if rules != [] {
      RulesOnAreDistinct(rules[..|rules| - 1], dayOfWeek);
    }
  }

  lemma {:induction false} DaysAscend(s: Schedule, booked: seq<TimeRange>, o: Options, offset: nat)
    requires GridInput(s, o) && s.zone.shifts == [] && o.duration > 0 && ValidRules(s.rules)
    requires offset <= o.withinDays + 1
    ensures var cs := FromDay(s, booked, o, offset);
      Ascending(cs) && Between(cs, FixedInstant(s.zone, Today(s, o.now) + offset, 0), FixedInstant(s.zone, Today(s, o.now) + o.withinDays + 1, 0))
    decreases o.withinDays + 1 - offset
  {
    hide DateAt, Today, FromWindows, GridInput, ValidRules, MinutesOf, OverrideOn;
    if offset <= o.withinDays {
      StepIsPositive(s, o);
      var date := DateAt(s, o.now, offset);
      var windows := WindowsOn(s, date);
      ValidRulesAreInSequence(s.rules, DayOfWeekOf(date));
      assert InSequence(windows);
      WindowsAscend(s, booked, o, offset, windows, 0);
      DaysAscend(s, booked, o, offset + 1);
      AscendingJoin(FromWindows(s, booked, o, date, windows), FromDay(s, booked, o, offset + 1),
        FixedInstant(s.zone, Today(s, o.now) + offset, 0), FixedInstant(s.zone, Today(s, o.now) + offset + 1, 0),
        FixedInstant(s.zone, Today(s, o.now) + o.withinDays + 1, 0));
    }
  }

  /** Validated rules in a zone without shifts never offer one instant twice. */
  lemma GridAscendsStrictly(s: Schedule, booked: seq<TimeRange>, o: Options)
    requires GridInput(s, o) && DatesNeverGoBack(o.interviewZone)
    requires s.zone.shifts == [] && o.duration > 0 && ValidRules(s.rules)
    ensures Ascending(Flatten(SlotGrid(s, booked, o)))
  {
    hide Flatten, SlotGrid, FromDay, GridInput, DatesNeverGoBack, ValidRules;
    StepIsPositive(s, o);
    var cs, all := FromDay(s, booked, o, 0), Flatten(SlotGrid(s, booked, o));
    DaysAscend(s, booked, o, 0);
    GridAscends(s, booked, o);
    GridPermutes(s, booked, o);
    DistinctCounts(cs);
    assert forall x :: x in all <==> x in multiset(all);
    DistinctCounts(all);
    forall i, j | 0 <= i < j < |all| ensures all[i].startUtc < all[j].startUtc {
      assert all[i] in multiset(cs) && all[j] in multiset(cs);
      assert all[i] != all[j];
      var a, b :| 0 <= a < |cs| && 0 <= b < |cs| && cs[a] == all[i] && cs[b] == all[j];
    }
  }
}
