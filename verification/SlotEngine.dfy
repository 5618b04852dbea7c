// Projection of weekly rules and date overrides onto a grid of bookable start times.
module SlotEngine {
  import opened Calendar
  import opened Text
  import opened Wrappers
  import opened Zones
  import opened SlotConflicts
  import opened Sorting

  const MS_PER_MINUTE := 60_000

  /** `dayOfWeek` counts from 0 = Sunday. */
  datatype Rule = Rule(dayOfWeek: int, startTime: TimeOfDay, endTime: TimeOfDay)

  /** `date` is the UTC midnight the database returns for a calendar date. */
  datatype Override = Override(date: int, isAvailable: bool, startTime: Option<TimeOfDay>, endTime: Option<TimeOfDay>)

  datatype Schedule = Schedule(zone: Zone, rules: seq<Rule>, overrides: seq<Override>)

  datatype Options = Options(interviewZone: Zone, duration: nat, withinDays: nat, step: nat, now: int)

  datatype Window = Window(startTime: TimeOfDay, endTime: TimeOfDay)

  /** `start` is the wall time in the interview zone. */
  datatype Candidate = Candidate(start: string, startUtc: int, endUtc: int)

  datatype GridDay = GridDay(date: string, slots: seq<Candidate>)

  // ---------------------------------------------------------------------------
  // Dates and windows
  // ---------------------------------------------------------------------------

  function CivilDateInZone(t: int, z: Zone): CivilDate {
    FieldsOf(LocalTime(z, t)).date
  }

  function DbDate(date: int): CivilDate {
    FieldsOf(date).date
  }

  predicate RuleLess(a: Rule, b: Rule) {
    StringLess(a.startTime, b.startTime)
  }

  function RulesOn(rules: seq<Rule>, dayOfWeek: int): (r: seq<Rule>)
    ensures forall x :: x in r <==> x in rules && x.dayOfWeek == dayOfWeek
  {
    if rules == [] then []
    else
      var last := rules[|rules| - 1];
      RulesOn(rules[..|rules| - 1], dayOfWeek) + (if last.dayOfWeek == dayOfWeek then [last] else [])
  }

  /** The override that a map filled in order holds for `key`: the last one. */
  function OverrideOn(overrides: seq<Override>, key: string): Option<Override> {
    if overrides == [] then None
    else if DateKey(DbDate(overrides[|overrides| - 1].date)) == key then Some(overrides[|overrides| - 1])
    else OverrideOn(overrides[..|overrides| - 1], key)
  }

  function RuleWindows(rules: seq<Rule>): (r: seq<Window>)
    ensures |r| == |rules|
    ensures forall i :: 0 <= i < |r| ==> r[i] == Window(rules[i].startTime, rules[i].endTime)
  {
    if rules == [] then []
    else [Window(rules[0].startTime, rules[0].endTime)] + RuleWindows(rules[1..])
  }

  function OverrideWindows(override: Override): seq<Window> {
    if !override.isAvailable || override.startTime.None? || override.endTime.None? then []
    else [Window(override.startTime.value, override.endTime.value)]
  }

  function WindowsOn(s: Schedule, date: CivilDate): seq<Window> {
    match OverrideOn(s.overrides, DateKey(date))
    case Some(override) => OverrideWindows(override)
    case None => RuleWindows(Sort(RulesOn(s.rules, DayOfWeekOf(date)), RuleLess))
  }

  function DateAt(s: Schedule, now: int, offset: int): CivilDate {
    AddCivilDays(CivilDateInZone(now, s.zone), offset)
  }

  // ---------------------------------------------------------------------------
  // Candidates in the order the loops meet them
  // ---------------------------------------------------------------------------

  /** The wall time the engine writes for minute `t` of `date`. */
  function WallAt(date: CivilDate, t: int): string {
    DateKey(date) + "T" + MinutesToHHMM(t)
  }

  function CandidateAt(s: Schedule, o: Options, date: CivilDate, t: int): Option<Candidate> {
    match ZonedWallTimeToUtc(WallAt(date, t), s.zone)
    case None => None
    case Some(startUtc) =>
      Some(Candidate(UtcToZonedWallTime(startUtc, o.interviewZone), startUtc, startUtc + o.duration * MS_PER_MINUTE))
  }

  function RangeOf(c: Candidate): TimeRange {
    TimeRange(c.startUtc, c.endUtc)
  }

  /** In the future and free. */
  predicate IsOpen(c: Candidate, booked: seq<TimeRange>, now: int) {
    c.startUtc > now && !OverlapsAny(RangeOf(c), booked)
  }

  function Keep(c: Option<Candidate>, booked: seq<TimeRange>, now: int): seq<Candidate> {
    if c.Some? && IsOpen(c.value, booked, now) then [c.value] else []
  }

  function FromMinute(s: Schedule, booked: seq<TimeRange>, o: Options, date: CivilDate, t: int, windowEnd: int): seq<Candidate>
    requires o.step > 0
    decreases windowEnd - t
  {
    if t + o.duration > windowEnd then []
    else Keep(CandidateAt(s, o, date, t), booked, o.now) + FromMinute(s, booked, o, date, t + o.step, windowEnd)
  }

  function FromWindows(s: Schedule, booked: seq<TimeRange>, o: Options, date: CivilDate, windows: seq<Window>): seq<Candidate>
    requires o.step > 0
  {
    if windows == [] then []
    else
      FromMinute(s, booked, o, date, MinutesOf(windows[0].startTime), MinutesOf(windows[0].endTime))
      + FromWindows(s, booked, o, date, windows[1..])
  }

  function FromDay(s: Schedule, booked: seq<TimeRange>, o: Options, offset: nat): seq<Candidate>
    requires o.step > 0
    decreases o.withinDays + 1 - offset
  {
    if offset > o.withinDays then []
    else
      var date := DateAt(s, o.now, offset);
      FromWindows(s, booked, o, date, WindowsOn(s, date)) + FromDay(s, booked, o, offset + 1)
  }

  // ---------------------------------------------------------------------------
  // Buckets by civil date
  // ---------------------------------------------------------------------------

  /** A JavaScript map: its entries and its keys in insertion order. */
  datatype Buckets = Buckets(order: seq<string>, slots: map<string, seq<Candidate>>)

  function BucketKey(c: Candidate, z: Zone): string {
    DateKey(CivilDateInZone(c.startUtc, z))
  }

  function Push(b: Buckets, key: string, c: Candidate): Buckets {
    if key in b.slots then Buckets(b.order, b.slots[key := b.slots[key] + [c]])
    else Buckets(b.order + [key], b.slots[key := [c]])
  }

  function Bucketize(cs: seq<Candidate>, z: Zone): Buckets {
    if cs == [] then Buckets([], map[])
    else
      var last := cs[|cs| - 1];
      Push(Bucketize(cs[..|cs| - 1], z), BucketKey(last, z), last)
  }

  predicate SlotLess(a: Candidate, b: Candidate) {
    a.startUtc < b.startUtc
  }

  predicate KeyLess(a: string, b: string) {
    StringLess(a, b)
  }

  function DaysOf(keys: seq<string>, slots: map<string, seq<Candidate>>): seq<GridDay>
    requires forall k :: k in keys ==> k in slots
  {
    if keys == [] then []
    else [GridDay(keys[0], Sort(slots[keys[0]], SlotLess))] + DaysOf(keys[1..], slots)
  }

  ghost predicate WellKeyed(b: Buckets) {
    Distinct(b.order) && forall k :: k in b.order <==> k in b.slots
  }

  function GridOf(b: Buckets): seq<GridDay>
    requires WellKeyed(b)
  {
    SortKeepsMembers(b.order, KeyLess);
    DaysOf(Sort(b.order, KeyLess), b.slots)
  }

  lemma {:induction false} BucketizeIsWellKeyed(cs: seq<Candidate>, z: Zone)
    ensures WellKeyed(Bucketize(cs, z))
    decreases |cs|
  {
    if cs != [] {
      BucketizeIsWellKeyed(cs[..|cs| - 1], z);
    }
  }

  /** The whole grid, as a function of its inputs. */
  function SlotGrid(s: Schedule, booked: seq<TimeRange>, o: Options): seq<GridDay>
    requires o.step > 0
  {
    var cs := FromDay(s, booked, o, 0);
    BucketizeIsWellKeyed(cs, o.interviewZone);
    GridOf(Bucketize(cs, o.interviewZone))
  }

  /** The grid's days run together, as `suggestSlots` does. */
  function Flatten(grid: seq<GridDay>): seq<Candidate> {
    if grid == [] then [] else grid[0].slots + Flatten(grid[1..])
  }

  // ---------------------------------------------------------------------------
  // The loops of the source
  // ---------------------------------------------------------------------------

  method GroupRules(rules: seq<Rule>) returns (rulesByDay: map<int, seq<Rule>>)
    ensures forall d :: d in rulesByDay ==> rulesByDay[d] == Sort(RulesOn(rules, d), RuleLess)
    ensures forall d :: d !in rulesByDay ==> RulesOn(rules, d) == []
  {
    rulesByDay := map[];
    for i := 0 to |rules|
      invariant forall d :: d in rulesByDay ==> rulesByDay[d] == RulesOn(rules[..i], d)
      invariant forall d :: d !in rulesByDay ==> RulesOn(rules[..i], d) == []
    {
      var rule := rules[i];
      assert rules[..i + 1][..i] == rules[..i];
      var list := if rule.dayOfWeek in rulesByDay then rulesByDay[rule.dayOfWeek] else [];
      rulesByDay := rulesByDay[rule.dayOfWeek := list + [rule]];
    }
    assert rules[..|rules|] == rules;
    rulesByDay := map d | d in rulesByDay :: Sort(rulesByDay[d], RuleLess);
  }

  method IndexOverrides(overrides: seq<Override>) returns (byDate: map<string, Override>)
    ensures forall k :: OverrideOn(overrides, k) == if k in byDate then Some(byDate[k]) else None
  {
    byDate := map[];
    for i := 0 to |overrides|
      invariant forall k :: OverrideOn(overrides[..i], k) == if k in byDate then Some(byDate[k]) else None
    {
      assert overrides[..i + 1][..i] == overrides[..i];
      byDate := byDate[DateKey(DbDate(overrides[i].date)) := overrides[i]];
    }
    assert overrides[..|overrides|] == overrides;
  }

  function ResolveWindows(key: string, date: CivilDate, rulesByDay: map<int, seq<Rule>>, overridesByDate: map<string, Override>): seq<Window> {
    if key in overridesByDate then OverrideWindows(overridesByDate[key])
    else if DayOfWeekOf(date) in rulesByDay then RuleWindows(rulesByDay[DayOfWeekOf(date)])
    else []
  }

  /** The innermost loop: slides across one window and files each open start. */
  method SlideWindow(s: Schedule, booked: seq<TimeRange>, o: Options, offset: nat, date: CivilDate, window: Window,
      byDate: Buckets, ghost done: seq<Candidate>)
    returns (filed: Buckets)
    requires o.step > 0 && ValidZone(s.zone) && Horizon(o.now, o.withinDays)
    requires offset <= o.withinDays && date == DateAt(s, o.now, offset)
    requires byDate == Bucketize(done, o.interviewZone)
    ensures filed == Bucketize(
      done + FromMinute(s, booked, o, date, MinutesOf(window.startTime), MinutesOf(window.endTime)), o.interviewZone)
  {
    hide ZonedWallTimeToUtc, UtcToZonedWallTime, WallAt, BucketKey, OverlapsAny, MinutesOf, DateAt, Horizon, ValidZone;
    filed := byDate;
    ghost var now := done;
    var windowStart := MinutesOf(window.startTime);
    var windowEnd := MinutesOf(window.endTime);
    var t := windowStart;
    while t + o.duration <= windowEnd
      invariant 0 <= t
      invariant filed == Bucketize(now, o.interviewZone)
      invariant now + FromMinute(s, booked, o, date, t, windowEnd) == done + FromMinute(s, booked, o, date, windowStart, windowEnd)
      decreases windowEnd - t
    {
      var startUtc := ConvertWallTime(WallAt(date, t), s.zone);
      assert startUtc.Some? by { WallIsReadable(s, o, offset, t); }
      var slot := Candidate(UtcToZonedWallTime(startUtc.value, o.interviewZone), startUtc.value,
        startUtc.value + o.duration * MS_PER_MINUTE);
      if slot.startUtc > o.now && !OverlapsAny(RangeOf(slot), booked) {
        filed := Push(filed, BucketKey(slot, o.interviewZone), slot);
        now := now + [slot];
        assert now[..|now| - 1] + [slot] == now;
      }
      t := t + o.step;
    }
    assert now + FromMinute(s, booked, o, date, t, windowEnd) == now;
  }

  /** The grid: dates from today on, the windows of each, and each window's starts. */
  method ComputeSlotGrid(s: Schedule, booked: seq<TimeRange>, o: Options) returns (grid: seq<GridDay>)
    requires o.step > 0
    requires ValidZone(s.zone) && Horizon(o.now, o.withinDays)
    ensures grid == SlotGrid(s, booked, o)
  {
    hide DateKey, DayOfWeekOf, AddCivilDays, CivilDateInZone, MinutesOf, FromMinute, Horizon, ValidZone, ResolveWindows, WindowsOn,
      OverrideOn, RulesOn, BucketKey;
    var rulesByDay := GroupRules(s.rules);
    var overridesByDate := IndexOverrides(s.overrides);
    var today := CivilDateInZone(o.now, s.zone);
    var byDate := Buckets([], map[]);
    ghost var done: seq<Candidate> := [];

    for offset := 0 to o.withinDays + 1
      invariant byDate == Bucketize(done, o.interviewZone)
      invariant done + FromDay(s, booked, o, offset) == FromDay(s, booked, o, 0)
    {
      var date := AddCivilDays(today, offset);
      var windows := ResolveWindows(DateKey(date), date, rulesByDay, overridesByDate);
      ResolvedWindows(s, date, rulesByDay, overridesByDate);
      ghost var before := done;
      assert windows[0..] == windows;

      for i := 0 to |windows|
        invariant byDate == Bucketize(done, o.interviewZone)
        invariant done + FromWindows(s, booked, o, date, windows[i..]) == before + FromWindows(s, booked, o, date, windows)
      {
        byDate := SlideWindow(s, booked, o, offset, date, windows[i], byDate, done);
        done := done + FromMinute(s, booked, o, date, MinutesOf(windows[i].startTime), MinutesOf(windows[i].endTime));
        assert windows[i..][1..] == windows[i + 1..];
      }
      assert done + FromWindows(s, booked, o, date, windows[|windows|..]) == done;
      assert before + FromDay(s, booked, o, offset) == done + FromDay(s, booked, o, offset + 1);
    }
    assert done + FromDay(s, booked, o, o.withinDays + 1) == done;
    BucketizeIsWellKeyed(done, o.interviewZone);
    grid := GridOf(byDate);
  }

  lemma ResolvedWindows(s: Schedule, date: CivilDate, rulesByDay: map<int, seq<Rule>>, overridesByDate: map<string, Override>)
    requires forall d :: d in rulesByDay ==> rulesByDay[d] == Sort(RulesOn(s.rules, d), RuleLess)
    requires forall d :: d !in rulesByDay ==> RulesOn(s.rules, d) == []
    requires forall k :: OverrideOn(s.overrides, k) == if k in overridesByDate then Some(overridesByDate[k]) else None
    ensures ResolveWindows(DateKey(date), date, rulesByDay, overridesByDate) == WindowsOn(s, date)
  {
    hide DateKey, DayOfWeekOf;
  }

  // ---------------------------------------------------------------------------
  // Dates of the horizon
  // ---------------------------------------------------------------------------

  /** Every date the loop visits, in either zone, has a four-digit year. */
  predicate Horizon(now: int, withinDays: int) {
    InEra(now - 2 * MS_PER_DAY) && InEra(now + (withinDays + 3) * MS_PER_DAY)
  }

  /** Day number of the schedule's local date at `now`. */
  function Today(s: Schedule, now: int): int {
    LocalTime(s.zone, now) / MS_PER_DAY
  }

  lemma TodayBounds(s: Schedule, now: int)
    requires ValidZone(s.zone)
    ensures now - 2 * MS_PER_DAY < Today(s, now) * MS_PER_DAY < now + MS_PER_DAY
  {
    hide OffsetAt;
    OffsetIsOffset(s.zone, now);
  }

  /**
   * The loop visits consecutive dates: `offset` days after today is day number
   * today + offset, a real date with a four-digit year.
   */
  lemma DatesAreConsecutive(s: Schedule, now: int, offset: int, withinDays: int)
    requires ValidZone(s.zone) && Horizon(now, withinDays) && 0 <= offset <= withinDays
    ensures DateAt(s, now, offset) == CivilOfDay(Today(s, now) + offset)
    ensures FourDigitYear(DateAt(s, now, offset))
    ensures DayOfWeekOf(DateAt(s, now, offset)) == (Today(s, now) + offset + 4) % 7
    ensures UtcDay(DateAt(s, now, offset)) == Today(s, now) + offset
  {
    hide DayFromYear, CivilOfDay, UtcDay, MakeDay, OffsetAt, IsCivil;
    TodayBounds(s, now);
    var d := Today(s, now);
    EraYears(LocalTime(s.zone, now)) by { OffsetIsOffset(s.zone, now); }
    DayOfFields(LocalTime(s.zone, now));
    EraYears((d + offset) * MS_PER_DAY);
    DayOfFields((d + offset) * MS_PER_DAY);
    assert (d + offset) * MS_PER_DAY / MS_PER_DAY == d + offset;
  }

  lemma DayOfFields(t: int)
    requires PlainYear(FieldsOf(t).date)
    ensures FieldsOf(t).date == CivilOfDay(t / MS_PER_DAY) && UtcDay(FieldsOf(t).date) == t / MS_PER_DAY
  {
    hide DayFromYear, IsLeap;
  }

  /** The wall time the engine writes is read back as minute `t` of that date. */
  lemma WallIsReadable(s: Schedule, o: Options, offset: int, t: int)
    requires ValidZone(s.zone) && Horizon(o.now, o.withinDays) && 0 <= offset <= o.withinDays && 0 <= t < 1440
    ensures ZonedWallTimeToUtc(WallAt(DateAt(s, o.now, offset), t), s.zone)
      == Some(TwoPass((Today(s, o.now) + offset) * MS_PER_DAY + t * MS_PER_MINUTE, s.zone))
  {
    hide DayFromYear, CivilOfDay, UtcDay, MakeDay, OffsetAt, ParseNaive, DateKey, Pad, DateAt, Today, IsCivil, TwoPass;
    var date := DateAt(s, o.now, offset);
    DatesAreConsecutive(s, o.now, offset, o.withinDays);
    var n := Naive(date, t / 60, t % 60, 0);
    assert IsCivil(date);
    assert WallAt(date, t) == WallString(n);
    WallRoundTrip(n);
  }
}
