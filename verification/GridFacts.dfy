// What the slot grid contains, and in which order.
module GridFacts {
  import opened Calendar
  import opened Text
  import opened Wrappers
  import opened Zones
  import opened SlotConflicts
  import opened Sorting
  import opened SlotEngine

  /** The inputs the callers pass: real zones, a positive step, dates with four-digit years. */
  ghost predicate GridInput(s: Schedule, o: Options) {
    o.step > 0 && ValidZone(s.zone) && ValidZone(o.interviewZone) && Horizon(o.now, o.withinDays)
  }

  // ---------------------------------------------------------------------------
  // The declarative grid
  // ---------------------------------------------------------------------------

  /** Override `i` is the last one whose date has day number `day`. */
  ghost predicate Governs(overrides: seq<Override>, day: int, i: nat) {
    && i < |overrides| && overrides[i].date / MS_PER_DAY == day
    && forall j :: i < j < |overrides| ==> overrides[j].date / MS_PER_DAY != day
  }

  ghost predicate Opens(override: Override, w: Window) {
    override.isAvailable && override.startTime == Some(w.startTime) && override.endTime == Some(w.endTime)
  }

  /** Day number `day` has window `w`: by its last override if it has one, else by a rule of its weekday. */
  ghost predicate HasWindow(s: Schedule, day: int, w: Window) {
    || (exists i: nat :: Governs(s.overrides, day, i) && Opens(s.overrides[i], w))
    || ((forall i: nat :: !Governs(s.overrides, day, i))
        && exists r :: r in s.rules && r.dayOfWeek == (day + 4) % 7 && Window(r.startTime, r.endTime) == w)
  }

  /** `x` starts at the `k`-th step into window `w` of the date `d` days after today, and fits. */
  ghost predicate StartsAt(s: Schedule, o: Options, d: nat, w: Window, k: nat, x: Candidate) {
    var minute := MinutesOf(w.startTime) + k * o.step;
    var day := Today(s, o.now) + d;
    && d <= o.withinDays && HasWindow(s, day, w)
    && minute + o.duration <= MinutesOf(w.endTime)
    && x.startUtc == TwoPass(day * MS_PER_DAY + minute * MS_PER_MINUTE, s.zone)
    && x.endUtc == x.startUtc + o.duration * MS_PER_MINUTE
    && x.start == UtcToZonedWallTime(x.startUtc, o.interviewZone)
  }

  ghost predicate Offered(s: Schedule, booked: seq<TimeRange>, o: Options, x: Candidate) {
    && (exists d, w, k :: StartsAt(s, o, d, w, k, x))
    && x.startUtc > o.now
    && forall b :: b in booked ==> !RangesOverlap(RangeOf(x), b)
  }

  // ---------------------------------------------------------------------------
  // The loops meet exactly the offered starts
  // ---------------------------------------------------------------------------

  ghost predicate Met(s: Schedule, o: Options, date: CivilDate, t: int, windowEnd: int, k: nat, x: Candidate) {
    t + k * o.step + o.duration <= windowEnd && CandidateAt(s, o, date, t + k * o.step) == Some(x)
  }

  lemma {:induction false} MinuteMembers(s: Schedule, booked: seq<TimeRange>, o: Options, date: CivilDate, t: int, windowEnd: int, x: Candidate)
    requires o.step > 0
    ensures x in FromMinute(s, booked, o, date, t, windowEnd)
      <==> IsOpen(x, booked, o.now) && exists k :: Met(s, o, date, t, windowEnd, k, x)
    decreases windowEnd - t
  {
    hide CandidateAt, IsOpen;
    if t + o.duration <= windowEnd {
      var next := t + o.step;
      MinuteMembers(s, booked, o, date, next, windowEnd, x);
      if CandidateAt(s, o, date, t) == Some(x) { assert Met(s, o, date, t, windowEnd, 0, x); }
      if k: nat :| Met(s, o, date, next, windowEnd, k, x) {
        assert next + k * o.step == t + (k + 1) * o.step;
        assert Met(s, o, date, t, windowEnd, k + 1, x);
      }
      if k: nat :| k > 0 && Met(s, o, date, t, windowEnd, k, x) {
        assert next + (k - 1) * o.step == t + k * o.step;
        assert Met(s, o, date, next, windowEnd, k - 1, x);
      }
    } else {
      forall k: nat ensures !Met(s, o, date, t, windowEnd, k, x) {
        assert k * o.step >= 0;
      }
    }
  }

  lemma {:induction false} WindowMembers(s: Schedule, booked: seq<TimeRange>, o: Options, date: CivilDate, windows: seq<Window>, x: Candidate)
    requires o.step > 0
    ensures x in FromWindows(s, booked, o, date, windows)
      <==> exists w :: w in windows && x in FromMinute(s, booked, o, date, MinutesOf(w.startTime), MinutesOf(w.endTime))
    decreases |windows|
  {
    hide FromMinute, MinutesOf;
    if windows != [] {
      WindowMembers(s, booked, o, date, windows[1..], x);
      assert windows == [windows[0]] + windows[1..];
    }
  }

  /** The candidates of the date `d` days after today. */
  function OnDay(s: Schedule, booked: seq<TimeRange>, o: Options, d: nat): seq<Candidate>
    requires o.step > 0
  {
    FromWindows(s, booked, o, DateAt(s, o.now, d), WindowsOn(s, DateAt(s, o.now, d)))
  }

  lemma {:induction false} DayMembers(s: Schedule, booked: seq<TimeRange>, o: Options, offset: nat, x: Candidate)
    requires o.step > 0
    ensures x in FromDay(s, booked, o, offset) <==> exists d: nat :: offset <= d <= o.withinDays && x in OnDay(s, booked, o, d)
    decreases o.withinDays + 1 - offset
  {
    hide FromWindows, WindowsOn, DateAt;
    if offset <= o.withinDays {
      DayMembers(s, booked, o, offset + 1, x);
      assert FromDay(s, booked, o, offset) == OnDay(s, booked, o, offset) + FromDay(s, booked, o, offset + 1);
    }
  }

  lemma {:induction false} OverrideGoverns(overrides: seq<Override>, day: int) returns (i: nat)
    ensures var found := OverrideOn(overrides, DateKey(CivilOfDay(day)));
      if found.Some? then Governs(overrides, day, i) && found.value == overrides[i]
      else forall j :: 0 <= j < |overrides| ==> overrides[j].date / MS_PER_DAY != day
    decreases |overrides|
  {
    hide DateKey, CivilOfDay, IsCivil;
    i := 0;
    if overrides != [] {
      var n := |overrides| - 1;
      DbDateIsDay(overrides[n].date, day);
      if overrides[n].date / MS_PER_DAY == day { i := n; } else { i := OverrideGoverns(overrides[..n], day); }
    }
  }

  lemma OnlyOneGoverns(overrides: seq<Override>, day: int, i: nat, j: nat)
    requires Governs(overrides, day, i) && Governs(overrides, day, j)
    ensures i == j
  {
  }

  lemma DbDateIsDay(date: int, day: int)
    ensures DateKey(DbDate(date)) == DateKey(CivilOfDay(day)) <==> date / MS_PER_DAY == day
  {
    hide DateKey, CivilOfDay, IsCivil, MakeDay;
    assert DbDate(date) == CivilOfDay(date / MS_PER_DAY);
    if DateKey(DbDate(date)) == DateKey(CivilOfDay(day)) { DateKeysDiffer(DbDate(date), CivilOfDay(day)); }
  }

  lemma WindowsAreThoseOfTheDay(s: Schedule, o: Options, d: nat, w: Window)
    requires GridInput(s, o) && d <= o.withinDays
    ensures w in WindowsOn(s, DateAt(s, o.now, d)) <==> HasWindow(s, Today(s, o.now) + d, w)
  {
    hide DateKey, DateAt, CivilOfDay, Today, OverrideOn, DayOfWeekOf, Horizon, ValidZone, RuleWindows, Sort, RulesOn;
    DatesAreConsecutive(s, o.now, d, o.withinDays);
    RuleWindowMembers(s.rules, DayOfWeekOf(DateAt(s, o.now, d)), w);
    var day := Today(s, o.now) + d;
    var i := OverrideGoverns(s.overrides, day);
    forall j: nat | Governs(s.overrides, day, j) && Governs(s.overrides, day, i) ensures i == j {
      OnlyOneGoverns(s.overrides, day, i, j);
    }
  }

  lemma RuleWindowMembers(rules: seq<Rule>, dayOfWeek: int, w: Window)
    ensures w in RuleWindows(Sort(RulesOn(rules, dayOfWeek), RuleLess))
      <==> exists r :: r in rules && r.dayOfWeek == dayOfWeek && Window(r.startTime, r.endTime) == w
  {
    var sorted := Sort(RulesOn(rules, dayOfWeek), RuleLess);
    SortKeepsMembers(RulesOn(rules, dayOfWeek), RuleLess);
    var windows := RuleWindows(sorted);
    if w in windows {
      var i :| 0 <= i < |windows| && windows[i] == w;
      assert sorted[i] in rules;
    }
    if r :| r in rules && r.dayOfWeek == dayOfWeek && Window(r.startTime, r.endTime) == w {
      assert r in sorted;
      var i :| 0 <= i < |sorted| && sorted[i] == r;
      assert windows[i] == w;
    }
  }

  lemma MetIsStartsAt(s: Schedule, o: Options, d: nat, w: Window, k: nat, x: Candidate)
    requires GridInput(s, o) && d <= o.withinDays && HasWindow(s, Today(s, o.now) + d, w)
    ensures Met(s, o, DateAt(s, o.now, d), MinutesOf(w.startTime), MinutesOf(w.endTime), k, x) <==> StartsAt(s, o, d, w, k, x)
  {
    hide DateAt, Today, HasWindow, TwoPass, UtcToZonedWallTime, ZonedWallTimeToUtc, WallAt, MinutesOf, Horizon, ValidZone;
    var minute := MinutesOf(w.startTime) + k * o.step;
    assert k * o.step >= 0;
    if minute + o.duration <= MinutesOf(w.endTime) {
      WallIsReadable(s, o, d, minute);
    }
  }

  lemma CandidatesAreTheOffered(s: Schedule, booked: seq<TimeRange>, o: Options, x: Candidate)
    requires GridInput(s, o)
    ensures x in FromDay(s, booked, o, 0) <==> Offered(s, booked, o, x)
  {
    hide DateAt, OnDay, FromDay, StartsAt, RangesOverlap, OverlapsAny, Horizon, ValidZone;
    DayMembers(s, booked, o, 0, x);
    assert OverlapsAny(RangeOf(x), booked) <==> exists b :: b in booked && RangesOverlap(RangeOf(x), b) by {
      OverlapsSome(RangeOf(x), booked);
    }
    if x in FromDay(s, booked, o, 0) {
      var d: nat :| d <= o.withinDays && x in OnDay(s, booked, o, d);
      DayIsOffered(s, booked, o, d, x);
    }
    if Offered(s, booked, o, x) {
      var d: nat, w, k: nat :| StartsAt(s, o, d, w, k, x);
      StartsWithin(s, o, d, w, k, x);
      DayIsOffered(s, booked, o, d, x);
    }
  }

  lemma OverlapsSome(r: TimeRange, booked: seq<TimeRange>)
    ensures OverlapsAny(r, booked) <==> exists b :: b in booked && RangesOverlap(r, b)
  {
  }

  lemma StartsWithin(s: Schedule, o: Options, d: nat, w: Window, k: nat, x: Candidate)
    requires StartsAt(s, o, d, w, k, x)
    ensures d <= o.withinDays && HasWindow(s, Today(s, o.now) + d, w)
  {
  }

  lemma DayIsOffered(s: Schedule, booked: seq<TimeRange>, o: Options, d: nat, x: Candidate)
    requires GridInput(s, o) && d <= o.withinDays
    ensures x in OnDay(s, booked, o, d) <==> IsOpen(x, booked, o.now) && exists w, k :: StartsAt(s, o, d, w, k, x)
  {
    hide DateAt, Today, HasWindow, WindowsOn, FromMinute, FromWindows, Met, StartsAt, IsOpen, MinutesOf;
    var date := DateAt(s, o.now, d);
    WindowMembers(s, booked, o, date, WindowsOn(s, date), x);
    forall w: Window ensures w in WindowsOn(s, date) <==> HasWindow(s, Today(s, o.now) + d, w) {
      WindowsAreThoseOfTheDay(s, o, d, w);
    }
    forall w: Window ensures x in FromMinute(s, booked, o, date, MinutesOf(w.startTime), MinutesOf(w.endTime))
      <==> IsOpen(x, booked, o.now) && exists k :: Met(s, o, date, MinutesOf(w.startTime), MinutesOf(w.endTime), k, x)
    {
      MinuteMembers(s, booked, o, date, MinutesOf(w.startTime), MinutesOf(w.endTime), x);
    }
    forall w: Window, k: nat | HasWindow(s, Today(s, o.now) + d, w)
      ensures Met(s, o, date, MinutesOf(w.startTime), MinutesOf(w.endTime), k, x) <==> StartsAt(s, o, d, w, k, x)
    {
      MetIsStartsAt(s, o, d, w, k, x);
    }
    forall w: Window, k: nat | StartsAt(s, o, d, w, k, x) ensures HasWindow(s, Today(s, o.now) + d, w) {
      StartsWithin(s, o, d, w, k, x);
    }
  }

  // ---------------------------------------------------------------------------
  // The grid holds the candidates, each under its own date
  // ---------------------------------------------------------------------------

  function InBucket(cs: seq<Candidate>, z: Zone, key: string): seq<Candidate> {
    if cs == [] then []
    else
      var last := cs[|cs| - 1];
      InBucket(cs[..|cs| - 1], z, key) + (if BucketKey(last, z) == key then [last] else [])
  }

  lemma {:induction false} BucketsHold(cs: seq<Candidate>, z: Zone)
    ensures forall k :: k in Bucketize(cs, z).slots <==> InBucket(cs, z, k) != []
    ensures forall k :: k in Bucketize(cs, z).slots ==> Bucketize(cs, z).slots[k] == InBucket(cs, z, k)
    decreases |cs|
  {
    hide BucketKey;
    if cs != [] {
      BucketsHold(cs[..|cs| - 1], z);
    }
  }

  lemma {:induction false} BucketCounts(cs: seq<Candidate>, z: Zone, key: string, x: Candidate)
    ensures multiset(InBucket(cs, z, key))[x] == if BucketKey(x, z) == key then multiset(cs)[x] else 0
    decreases |cs|
  {
    hide BucketKey;
    if cs != [] {
      var last := cs[|cs| - 1];
      BucketCounts(cs[..|cs| - 1], z, key, x);
      assert cs == cs[..|cs| - 1] + [last];
    }
  }

  lemma {:induction false} DaysCount(keys: seq<string>, b: Buckets, cs: seq<Candidate>, z: Zone, x: Candidate)
    requires Distinct(keys) && forall k :: k in keys ==> k in b.slots && b.slots[k] == InBucket(cs, z, k)
    ensures multiset(Flatten(DaysOf(keys, b.slots)))[x] == if BucketKey(x, z) in keys then multiset(cs)[x] else 0
    decreases |keys|
  {
    hide BucketKey, InBucket;
    if keys != [] {
      var rest := keys[1..];
      assert keys == [keys[0]] + rest;
      DaysCount(rest, b, cs, z, x);
      SortPermutes(b.slots[keys[0]], SlotLess);
      BucketCounts(cs, z, keys[0], x);
      assert keys[0] !in rest;
    }
  }

  /** The grid's days hold every candidate as often as the loops met it. */
  lemma GridPermutes(s: Schedule, booked: seq<TimeRange>, o: Options)
    requires o.step > 0
    ensures multiset(Flatten(SlotGrid(s, booked, o))) == multiset(FromDay(s, booked, o, 0))
  {
    hide FromDay, Bucketize;
    var cs, z := FromDay(s, booked, o, 0), o.interviewZone;
    var b := Bucketize(cs, z);
    BucketizeIsWellKeyed(cs, z);
    BucketsHold(cs, z);
    var keys := Sort(b.order, KeyLess);
    SortKeepsMembers(b.order, KeyLess);
    SortKeepsDistinct(b.order, KeyLess);
    forall x ensures multiset(Flatten(SlotGrid(s, booked, o)))[x] == multiset(cs)[x] {
      DaysCount(keys, b, cs, z, x);
      BucketCounts(cs, z, BucketKey(x, z), x);
    }
  }

  /** Nothing is missing from the grid and nothing extra is in it. */
  lemma GridIsExact(s: Schedule, booked: seq<TimeRange>, o: Options, x: Candidate)
    requires GridInput(s, o)
    ensures x in Flatten(SlotGrid(s, booked, o)) <==> Offered(s, booked, o, x)
  {
    hide Flatten, SlotGrid, FromDay, Offered;
    GridPermutes(s, booked, o);
    CandidatesAreTheOffered(s, booked, o, x);
    assert x in Flatten(SlotGrid(s, booked, o)) <==> x in multiset(Flatten(SlotGrid(s, booked, o)));
  }

  /** Whatever the zones are, every slot of the grid is open and ends its duration after its start. */
  lemma GridSlotsAreOpen(s: Schedule, booked: seq<TimeRange>, o: Options, x: Candidate)
    requires o.step > 0 && x in Flatten(SlotGrid(s, booked, o))
    ensures IsOpen(x, booked, o.now) && x.endUtc == x.startUtc + o.duration * MS_PER_MINUTE
  {
    hide Flatten, SlotGrid, FromDay, OnDay, FromMinute, DateAt, WindowsOn, IsOpen, ZonedWallTimeToUtc, MinutesOf;
    GridPermutes(s, booked, o);
    assert x in multiset(FromDay(s, booked, o, 0));
    DayMembers(s, booked, o, 0, x);
    var d: nat :| d <= o.withinDays && x in OnDay(s, booked, o, d);
    var date := DateAt(s, o.now, d);
    DayOfWindow(s, booked, o, d, x);
    var w :| w in WindowsOn(s, date) && x in FromMinute(s, booked, o, date, MinutesOf(w.startTime), MinutesOf(w.endTime));
    MinuteMembers(s, booked, o, date, MinutesOf(w.startTime), MinutesOf(w.endTime), x);
  }

  lemma DayOfWindow(s: Schedule, booked: seq<TimeRange>, o: Options, d: nat, x: Candidate)
    requires o.step > 0 && x in OnDay(s, booked, o, d)
    ensures var date := DateAt(s, o.now, d);
      exists w :: w in WindowsOn(s, date) && x in FromMinute(s, booked, o, date, MinutesOf(w.startTime), MinutesOf(w.endTime))
  {
    WindowMembers(s, booked, o, DateAt(s, o.now, d), WindowsOn(s, DateAt(s, o.now, d)), x);
  }
}
