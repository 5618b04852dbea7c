// Time zones as piecewise-constant offsets, and conversion of wall-clock times.
module Zones {
  import opened Calendar
  import opened Text
  import opened Wrappers

  /** From instant `at` on, local time is UTC plus `offset`; both in milliseconds. */
  datatype Shift = Shift(at: int, offset: int)

  /** `base` is the offset before the first shift. */
  datatype Zone = Zone(base: int, shifts: seq<Shift>)

  const UTC := Zone(0, [])

  const MAX_OFFSET := MS_PER_DAY

  predicate IsOffset(ms: int) {
    -MAX_OFFSET < ms < MAX_OFFSET && ms % 1000 == 0
  }

  ghost predicate ValidZone(z: Zone) {
    && IsOffset(z.base)
    && (forall i :: 0 <= i < |z.shifts| ==> IsOffset(z.shifts[i].offset))
    && (forall i, j :: 0 <= i < j < |z.shifts| ==> z.shifts[i].at < z.shifts[j].at)
  }

  function OffsetAt(z: Zone, t: int): int
    decreases |z.shifts|
  {
    if z.shifts == [] || t < z.shifts[0].at then z.base
    else OffsetAt(Zone(z.shifts[0].offset, z.shifts[1..]), t)
  }

  /** The time value whose UTC fields are the local fields of instant `t`. */
  function LocalTime(z: Zone, t: int): int {
    t + OffsetAt(z, t)
  }

  lemma {:induction false} OffsetIsOffset(z: Zone, t: int)
    requires ValidZone(z)
    ensures IsOffset(OffsetAt(z, t))
    decreases |z.shifts|
  {
    if z.shifts != [] && z.shifts[0].at <= t {
      OffsetIsOffset(Zone(z.shifts[0].offset, z.shifts[1..]), t);
    }
  }

  // ---------------------------------------------------------------------------
  // The years in which four digits name every date
  // ---------------------------------------------------------------------------

  const FIRST_INSTANT := DayFromYear(1001) * MS_PER_DAY
  const LAST_INSTANT := DayFromYear(9998) * MS_PER_DAY

  /** `t` lies in the years 1001 to 9997. */
  predicate InEra(t: int) {
    FIRST_INSTANT <= t < LAST_INSTANT
  }

  lemma EraYears(t: int)
    requires FIRST_INSTANT - 2 * MAX_OFFSET <= t < LAST_INSTANT + 2 * MAX_OFFSET
    ensures FourDigitYear(FieldsOf(t).date) && PlainYear(FieldsOf(t).date)
  {
    var day := t / MS_PER_DAY;
    var y := YearFromDay(day);
    assert DayFromYear(1001) - 2 <= day < DayFromYear(9998) + 2;
    YearsAscend(1000, 1001);
    YearsAscend(9998, 9999);
    if y < 1000 { YearsAscend(y + 1, 1000); }
    if y > 9998 { YearsAscend(9999, y); }
  }

  // ---------------------------------------------------------------------------
  // Conversion
  // ---------------------------------------------------------------------------

  /** The local fields of `t`, composed as if they were UTC, minus `t`. */
  function TimeZoneOffsetMs(t: int, z: Zone): int {
    UtcMs(FieldsOf(LocalTime(z, t))) - t
  }

  /** Both passes over the wall time whose fields compose to `guess`. */
  function TwoPass(guess: int, z: Zone): int {
    guess - TimeZoneOffsetMs(guess - TimeZoneOffsetMs(guess, z), z)
  }

  /** None where the source throws on an unreadable wall time. */
  function ZonedWallTimeToUtc(wall: string, z: Zone): Option<int> {
    match ParseNaive(wall)
    case None => None
    case Some(naive) => Some(TwoPass(UtcMs(naive), z))
  }

  function UtcToZonedWallTime(t: int, z: Zone): string {
    WallString(FieldsOf(LocalTime(z, t)))
  }

  /** The conversion as the source runs it, refining `offset` and `result` once. */
  method ConvertWallTime(wall: string, z: Zone) returns (utc: Option<int>)
    ensures utc == ZonedWallTimeToUtc(wall, z)
  {
    hide ParseNaive, UtcMs, TimeZoneOffsetMs;
    var naive := ParseNaive(wall);
    if naive.None? {
      return None;
    }
    var utcGuess := UtcMs(naive.value);
    var offset := TimeZoneOffsetMs(utcGuess, z);
    var result := utcGuess - offset;
    offset := TimeZoneOffsetMs(result, z);
    result := utcGuess - offset;
    return Some(result);
  }

  lemma OffsetIsRead(t: int, z: Zone)
    requires ValidZone(z) && t % 1000 == 0
    requires FIRST_INSTANT - MAX_OFFSET <= t < LAST_INSTANT + MAX_OFFSET
    ensures TimeZoneOffsetMs(t, z) == OffsetAt(z, t)
  {
    hide DayFromYear, FieldsOf, UtcMs, OffsetAt, ValidZone;
    OffsetIsOffset(z, t);
    SecondsAdd(t, OffsetAt(z, t));
    EraYears(LocalTime(z, t));
    FieldsRoundTrip(LocalTime(z, t));
  }

  lemma SecondsAdd(a: int, b: int)
    requires a % 1000 == 0 && b % 1000 == 0
    ensures (a + b) % 1000 == 0 && (a - b) % 1000 == 0
  {
    var p, q := a / 1000, b / 1000;
    assert a + b == 1000 * (p + q) && a - b == 1000 * (p - q);
  }

  lemma TwoPassReadsOffsets(w: int, z: Zone)
    requires ValidZone(z) && InEra(w) && w % 1000 == 0
    ensures TwoPass(w, z) == w - OffsetAt(z, w - OffsetAt(z, w))
    ensures TwoPass(w, z) % 1000 == 0 && w - MAX_OFFSET < TwoPass(w, z) < w + MAX_OFFSET
  {
    hide DayFromYear, TimeZoneOffsetMs, OffsetAt, ValidZone;
    OffsetIsOffset(z, w);
    OffsetIsRead(w, z);
    var first := w - OffsetAt(z, w);
    SecondsAdd(w, OffsetAt(z, w));
    OffsetIsOffset(z, first);
    OffsetIsRead(first, z);
    SecondsAdd(w, OffsetAt(z, first));
  }

  // ---------------------------------------------------------------------------
  // Correctness across a shift
  // ---------------------------------------------------------------------------

  /** At most one shift lies within `reach` of wall time `w`. */
  ghost predicate AtMostOneShift(z: Zone, w: int, reach: int) {
    forall i, j :: 0 <= i < |z.shifts| && 0 <= j < |z.shifts|
      && w - reach < z.shifts[i].at <= w + reach && w - reach < z.shifts[j].at <= w + reach
      ==> i == j
  }

  /** `reach` bounds every offset of the zone. */
  ghost predicate Bounds(z: Zone, reach: int) {
    && -reach <= z.base <= reach
    && forall i :: 0 <= i < |z.shifts| ==> -reach <= z.shifts[i].offset <= reach
  }

  /** Some instant has local time `w`. */
  ghost predicate Exists(z: Zone, w: int) {
    exists t :: LocalTime(z, t) == w
  }

  /** Around `w` the offset is `before` until `at` and `after` from `at` on. */
  ghost predicate Regimes(z: Zone, w: int, reach: int, at: int, before: int, after: int) {
    && -reach <= before <= reach && -reach <= after <= reach
    && forall t :: w - reach <= t <= w + reach ==> OffsetAt(z, t) == if t < at then before else after
  }

  lemma {:induction false} TwoRegimes(z: Zone, w: int, reach: int) returns (at: int, before: int, after: int)
    requires ValidZone(z) && Bounds(z, reach) && AtMostOneShift(z, w, reach)
    ensures Regimes(z, w, reach, at, before, after)
    decreases |z.shifts|
  {
    if z.shifts == [] || w + reach < z.shifts[0].at {
      return w, z.base, z.base;
    }
    var rest := Zone(z.shifts[0].offset, z.shifts[1..]);
    assert forall i :: 0 <= i < |rest.shifts| ==> rest.shifts[i] == z.shifts[i + 1];
    if z.shifts[0].at <= w - reach {
      at, before, after := TwoRegimes(rest, w, reach);
    } else {
      at, before, after := z.shifts[0].at, z.base, z.shifts[0].offset;
      forall t | w - reach <= t <= w + reach && at <= t
        ensures OffsetAt(z, t) == after
      {
        assert rest.shifts != [] ==> rest.shifts[0] == z.shifts[1];
        assert rest.shifts != [] ==> w + reach < rest.shifts[0].at;
      }
    }
  }

  lemma ExistsOnOneSide(z: Zone, w: int, reach: int, at: int, before: int, after: int)
    requires ValidZone(z) && Bounds(z, reach) && Regimes(z, w, reach, at, before, after)
    ensures Exists(z, w) <==> (w - before < at || at <= w - after)
  {
    if Exists(z, w) {
      var t :| LocalTime(z, t) == w;
      OffsetIsBounded(z, t, reach);
    }
    if w - before < at { assert LocalTime(z, w - before) == w; }
    if at <= w - after { assert LocalTime(z, w - after) == w; }
  }

  lemma {:induction false} OffsetIsBounded(z: Zone, t: int, reach: int)
    requires Bounds(z, reach)
    ensures -reach <= OffsetAt(z, t) <= reach
    decreases |z.shifts|
  {
    if z.shifts != [] && z.shifts[0].at <= t {
      OffsetIsBounded(Zone(z.shifts[0].offset, z.shifts[1..]), t, reach);
    }
  }

  /**
   * With at most one shift within reach of `w`, the two passes give an instant
   * whose local time is `w` exactly when there is one, for offsets of either
   * sign and for shifts in either direction.
   */
  lemma TwoPassIsExact(w: int, z: Zone, reach: int)
    requires ValidZone(z) && InEra(w) && w % 1000 == 0
    requires Bounds(z, reach) && AtMostOneShift(z, w, reach)
    ensures LocalTime(z, TwoPass(w, z)) == w <==> Exists(z, w)
  {
    hide TwoPass;
    TwoPassReadsOffsets(w, z);
    var at, before, after := TwoRegimes(z, w, reach);
    ExistsOnOneSide(z, w, reach, at, before, after);
  }

  /**
   * A wall time that a spring-forward shift skips is moved by exactly the length
   * of the gap: forward in zones ahead of UTC, backward in zones behind it.
   */
  lemma SkippedTimeMovesByTheGap(w: int, z: Zone, reach: int, at: int, before: int, after: int)
    requires ValidZone(z) && InEra(w) && w % 1000 == 0
    requires Bounds(z, reach) && Regimes(z, w, reach, at, before, after)
    requires !Exists(z, w)
    ensures before < after
    ensures LocalTime(z, TwoPass(w, z)) == if at <= w then w + (after - before) else w - (after - before)
  {
    hide TwoPass;
    TwoPassReadsOffsets(w, z);
    ExistsOnOneSide(z, w, reach, at, before, after);
  }

  /**
   * A wall time that a fall-back shift repeats becomes its later instant when it
   * reads, as UTC, no earlier than the shift (zones ahead of UTC), else its earlier one.
   */
  lemma RepeatedTimeChoice(w: int, z: Zone, reach: int, at: int, before: int, after: int)
    requires ValidZone(z) && InEra(w) && w % 1000 == 0
    requires Bounds(z, reach) && Regimes(z, w, reach, at, before, after)
    requires w - before < at <= w - after
    ensures LocalTime(z, w - before) == w == LocalTime(z, w - after)
    ensures TwoPass(w, z) == if at <= w then w - after else w - before
  {
    hide TwoPass;
    TwoPassReadsOffsets(w, z);
  }

  /**
   * Two shifts within reach can defeat the refinement: the skew of the first pass
   * lands beyond the second shift although the wall time exists.
   */
  lemma TwoNearbyShiftsDefeatIt() returns (z: Zone, w: int)
    ensures ValidZone(z) && InEra(w) && w % 1000 == 0
    ensures Exists(z, w) && LocalTime(z, TwoPass(w, z)) != w
  {
    hide DayFromYear, TwoPass, OffsetAt, InEra;
    w := DayFromYear(2000) * MS_PER_DAY;
    YearTwoThousand();
    // The guess reads +4h, four hours earlier reads +2h, and only +3h would have been right.
    var early, late := Shift(w - 4 * HOUR + 1000, 3 * HOUR), Shift(w - 2 * HOUR - 1000, 4 * HOUR);
    z := Zone(2 * HOUR, [early, late]);
    ThreeOffsets(2 * HOUR, early, late, w);
    ThreeOffsets(2 * HOUR, early, late, w - 2 * HOUR);
    ThreeOffsets(2 * HOUR, early, late, w - 3 * HOUR);
    ThreeOffsets(2 * HOUR, early, late, w - 4 * HOUR);
    assert LocalTime(z, w - 3 * HOUR) == w;
    TwoPassReadsOffsets(w, z);
  }

  const HOUR := 3_600_000

  lemma YearTwoThousand()
    ensures var w := DayFromYear(2000) * MS_PER_DAY; InEra(w) && w % 1000 == 0
  {
    hide DayFromYear;
    YearsAscend(1001, 2000);
    YearsAscend(2000, 9998);
    var w := DayFromYear(2000) * MS_PER_DAY;
    assert w == 1000 * (DayFromYear(2000) * 86_400);
  }

  // ---------------------------------------------------------------------------
  // Correctness with any number of shifts
  // ---------------------------------------------------------------------------

  /** The instant the first pass guesses for wall time `w`. */
  function FirstGuess(w: int, z: Zone): int {
    w - OffsetAt(z, w)
  }

  /** The instant the second pass corrects it to. */
  function SecondGuess(w: int, z: Zone): int {
    w - OffsetAt(z, FirstGuess(w, z))
  }

  /** The result is right exactly when both guesses have the same offset. */
  lemma TwoPassNeedsOneOffset(w: int, z: Zone)
    requires ValidZone(z) && InEra(w) && w % 1000 == 0
    ensures TwoPass(w, z) == SecondGuess(w, z)
    ensures LocalTime(z, TwoPass(w, z)) == w <==> OffsetAt(z, SecondGuess(w, z)) == OffsetAt(z, FirstGuess(w, z))
  {
    hide TwoPass, OffsetAt, ValidZone;
    TwoPassReadsOffsets(w, z);
  }

  /** Shift `i` comes after `from` and no later than `to`. */
  predicate Between(z: Zone, i: nat, from: int, to: int)
    requires i < |z.shifts|
  {
    from < z.shifts[i].at <= to
  }

  /** Shift `i` is the last that comes after `from` and no later than `to`. */
  predicate LastBetween(z: Zone, i: nat, from: int, to: int) {
    i < |z.shifts| && Between(z, i, from, to) && (i + 1 == |z.shifts| || to < z.shifts[i + 1].at)
  }

  /** From `from` to `to` the zone does not shift, or the last shift restores the offset. */
  ghost predicate SameOffset(z: Zone, from: int, to: int) {
    forall i: nat :: LastBetween(z, i, from, to) ==> z.shifts[i].offset == OffsetAt(z, from)
  }

  lemma {:induction false} OffsetFromShift(z: Zone, i: nat, t: int)
    requires ValidZone(z) && i < |z.shifts| && z.shifts[i].at <= t && (i + 1 == |z.shifts| || t < z.shifts[i + 1].at)
    ensures OffsetAt(z, t) == z.shifts[i].offset
    decreases i
  {
    var rest := Zone(z.shifts[0].offset, z.shifts[1..]);
    assert z.shifts[0].at <= z.shifts[i].at;
    if i > 0 {
      assert forall j :: 0 <= j < |rest.shifts| ==> rest.shifts[j] == z.shifts[j + 1];
      OffsetFromShift(rest, i - 1, t);
    } else {
      assert rest.shifts != [] ==> rest.shifts[0] == z.shifts[1];
    }
  }

  /** Either no shift comes between two instants, or one of them is the last. */
  lemma {:induction false} LastShift(z: Zone, from: int, to: int, n: nat) returns (i: nat)
    requires ValidZone(z) && from <= to && n <= |z.shifts|
    requires forall j :: n <= j < |z.shifts| ==> to < z.shifts[j].at
    ensures LastBetween(z, i, from, to) || OffsetAt(z, from) == OffsetAt(z, to)
    decreases n
  {
    i := 0;
    if n == 0 {
      assert OffsetAt(z, from) == OffsetAt(z, to) by { assert z.shifts == [] || to < z.shifts[0].at; }
    } else if to < z.shifts[n - 1].at {
      i := LastShift(z, from, to, n - 1);
    } else if from < z.shifts[n - 1].at {
      i := n - 1;
    } else {
      OffsetFromShift(z, n - 1, from);
      OffsetFromShift(z, n - 1, to);
    }
  }

  lemma SameOffsetMeans(z: Zone, from: int, to: int)
    requires ValidZone(z) && from <= to
    ensures SameOffset(z, from, to) <==> OffsetAt(z, from) == OffsetAt(z, to)
  {
    hide OffsetAt;
    var i := LastShift(z, from, to, |z.shifts|);
    forall j: nat | LastBetween(z, j, from, to) ensures OffsetAt(z, to) == z.shifts[j].offset {
      OffsetFromShift(z, j, to);
    }
  }

  /**
   * For every zone and wall time: the two passes are right exactly when the zone
   * does not shift between the two guesses, or its last shift there restores the
   * offset that was in force at the earlier one.
   */
  lemma TwoPassExactly(w: int, z: Zone)
    requires ValidZone(z) && InEra(w) && w % 1000 == 0
    ensures var a, b := FirstGuess(w, z), SecondGuess(w, z);
      LocalTime(z, TwoPass(w, z)) == w <==> if a <= b then SameOffset(z, a, b) else SameOffset(z, b, a)
  {
    hide TwoPass, OffsetAt, ValidZone, SameOffset, LocalTime;
    TwoPassNeedsOneOffset(w, z);
    var a, b := FirstGuess(w, z), SecondGuess(w, z);
    if a <= b { SameOffsetMeans(z, a, b); } else { SameOffsetMeans(z, b, a); }
  }

  lemma ThreeOffsets(base: int, a: Shift, b: Shift, t: int)
    requires a.at < b.at
    ensures OffsetAt(Zone(base, [a, b]), t) == if t < a.at then base else if t < b.at then a.offset else b.offset
  {
    assert [a, b][1..] == [b];
    assert [b][1..] == [];
    assert OffsetAt(Zone(b.offset, []), t) == b.offset;
    assert OffsetAt(Zone(a.offset, [b]), t) == if t < b.at then a.offset else b.offset;
  }

  // ---------------------------------------------------------------------------
  // Round trips through wall-clock strings
  // ---------------------------------------------------------------------------

  /** `n` is a wall time to the minute in the years 1001 to 9997. */
  ghost predicate MinuteOfEra(n: Naive) {
    && IsCivil(n.date) && FourDigitYear(n.date)
    && 0 <= n.hour < 24 && 0 <= n.minute < 60 && n.second == 0
    && InEra(UtcMs(n))
  }

  /** A wall time that exists comes back from its instant. */
  lemma WallTimeRoundTrip(n: Naive, z: Zone, reach: int)
    requires MinuteOfEra(n) && ValidZone(z)
    requires Bounds(z, reach) && AtMostOneShift(z, UtcMs(n), reach) && Exists(z, UtcMs(n))
    ensures var utc := ZonedWallTimeToUtc(WallString(n), z);
      utc.Some? && UtcToZonedWallTime(utc.value, z) == WallString(n)
  {
    hide WallString, ParseNaive, TwoPass, LocalTime, Exists, IsCivil, UtcMs, FieldsOf, Bounds, AtMostOneShift, ValidZone;
    WallRoundTrip(n);
    WholeSeconds(n);
    var w := UtcMs(n);
    TwoPassIsExact(w, z, reach);
    FieldsOfMinute(n);
  }

  lemma FieldsOfMinute(n: Naive)
    requires MinuteOfEra(n)
    ensures FieldsOf(UtcMs(n)) == n && n.(second := 0) == n
  {
    hide UtcMs, FieldsOf, DayFromYear, IsCivil;
    ComposeRoundTrip(n);
  }

  lemma WholeSeconds(n: Naive)
    ensures UtcMs(n) % 1000 == 0
  {
    hide UtcDay;
    assert UtcMs(n) == 1000 * (UtcDay(n.date) * 86_400 + n.hour * 3600 + n.minute * 60 + n.second);
  }

  /**
   * An instant on a local minute comes back with the same local time; with the
   * zone's offset constant within reach of it, it comes back itself.
   */
  lemma InstantRoundTrip(t: int, z: Zone, reach: int)
    requires ValidZone(z) && InEra(LocalTime(z, t)) && LocalTime(z, t) % 60_000 == 0
    requires Bounds(z, reach) && AtMostOneShift(z, LocalTime(z, t), reach)
    ensures var utc := ZonedWallTimeToUtc(UtcToZonedWallTime(t, z), z);
      && utc.Some? && LocalTime(z, utc.value) == LocalTime(z, t)
      && ((forall u :: LocalTime(z, t) - reach <= u <= LocalTime(z, t) + reach ==> OffsetAt(z, u) == OffsetAt(z, t))
          ==> utc.value == t)
  {
    hide WallString, ParseNaive, DayFromYear, TwoPass, FieldsOf, IsCivil, OffsetAt, ValidZone, AtMostOneShift, Bounds, UtcMs;
    var w := LocalTime(z, t);
    MinuteIsRead(w);
    TwoPassIsExact(w, z, reach);
    TwoPassReadsOffsets(w, z);
    OffsetIsBounded(z, w, reach);
  }

  lemma MinuteIsRead(w: int)
    requires InEra(w) && w % 60_000 == 0
    ensures w % 1000 == 0 && ParseNaive(WallString(FieldsOf(w))).Some?
    ensures UtcMs(ParseNaive(WallString(FieldsOf(w))).value) == w
  {
    hide WallString, ParseNaive, DayFromYear, FieldsOf, IsCivil, UtcMs;
    EraYears(w);
    FieldsRoundTrip(w);
    NoSeconds(w);
    WallRoundTrip(FieldsOf(w));
    assert FieldsOf(w).(second := 0) == FieldsOf(w);
    MinutesAreSeconds(w);
  }

  lemma MinutesAreSeconds(w: int)
    requires w % 60_000 == 0
    ensures w % 1000 == 0
  {
    var n := w / 60_000;
    assert w == 1000 * (60 * n);
  }

  lemma NoSeconds(t: int)
    requires t % 60_000 == 0
    ensures FieldsOf(t).second == 0
  {
    var ms := t % MS_PER_DAY;
    assert ms % 60_000 == 0;
    assert ms / 1000 == 60 * (ms / 60_000);
  }
}
