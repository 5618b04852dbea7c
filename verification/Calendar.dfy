// Civil dates and UTC time values, as section 21.4.1 of ECMA-262 defines them.
module Calendar {

  const MS_PER_DAY := 86_400_000

  /** A proleptic Gregorian date; `month` counts from 1. */
  datatype CivilDate = CivilDate(year: int, month: int, day: int)

  /** Calendar and clock fields of a local time, without milliseconds. */
  datatype Naive = Naive(date: CivilDate, hour: int, minute: int, second: int)

  predicate IsLeap(y: int) {
    y % 4 == 0 && (y % 100 != 0 || y % 400 == 0)
  }

  function DaysInYear(y: int): int {
    if IsLeap(y) then 366 else 365
  }

  /** The day number of the first of January of year `y`, counted year by year from 1970. */
  function DayFromYear(y: int): int
    decreases if y < 1970 then 1970 - y else y - 1970
  {
    if y == 1970 then 0
    else if y > 1970 then DayFromYear(y - 1) + DaysInYear(y - 1)
    else DayFromYear(y + 1) - DaysInYear(y)
  }

  /** Days of a common year that precede month `m0` (0 = January, 12 = the whole year). */
  function CommonMonthStart(m0: int): int {
    if m0 <= 0 then 0 else if m0 == 1 then 31 else if m0 == 2 then 59 else if m0 == 3 then 90
    else if m0 == 4 then 120 else if m0 == 5 then 151 else if m0 == 6 then 181 else if m0 == 7 then 212
    else if m0 == 8 then 243 else if m0 == 9 then 273 else if m0 == 10 then 304 else if m0 == 11 then 334
    else 365
  }

  function MonthStart(m0: int, leap: bool): int {
    CommonMonthStart(m0) + (if leap && 2 <= m0 then 1 else 0)
  }

  function MakeDay(year: int, month0: int, date: int): int {
    var y := year + month0 / 12;
    DayFromYear(y) + MonthStart(month0 % 12, IsLeap(y)) + date - 1
  }

  /** `Date.UTC` reads the years 0 to 99 as 1900 to 1999. */
  function FullYear(y: int): int {
    if 0 <= y <= 99 then 1900 + y else y
  }

  function UtcDay(c: CivilDate): int {
    MakeDay(FullYear(c.year), c.month - 1, c.day)
  }

  predicate IsCivil(c: CivilDate) {
    && 1 <= c.month <= 12
    && 1 <= c.day <= MonthStart(c.month, IsLeap(c.year)) - MonthStart(c.month - 1, IsLeap(c.year))
  }

  lemma YearStep(y: int)
    ensures DayFromYear(y + 1) == DayFromYear(y) + DaysInYear(y)
  {
  }

  /** The formula of ECMA-262 for the same count. */
  function DayFromYearFormula(y: int): int {
    365 * (y - 1970) + (y - 1969) / 4 - (y - 1901) / 100 + (y - 1601) / 400
  }

  lemma FormulaStep(y: int)
    ensures DayFromYearFormula(y + 1) == DayFromYearFormula(y) + DaysInYear(y)
  {
    LeapStep(y - 1969, 4);
    LeapStep(y - 1901, 100);
    LeapStep(y - 1601, 400);
  }

  lemma {:induction false} DayFromYearClosedForm(y: int)
    ensures DayFromYear(y) == DayFromYearFormula(y)
    decreases if y < 1970 then 1970 - y else y - 1970
  {
    if y == 1970 {
      assert DayFromYearFormula(1970) == 0;
    } else {
      hide DayFromYearFormula, DaysInYear;
      if y > 1970 {
        FormulaStep(y - 1);
        DayFromYearClosedForm(y - 1);
      } else {
        FormulaStep(y);
        DayFromYearClosedForm(y + 1);
      }
    }
  }

  lemma LeapStep(x: int, n: int)
    requires n > 0
    ensures (x + 1) / n == x / n + (if (x + 1) % n == 0 then 1 else 0)
  {
    var q, r := x / n, x % n;
    assert x == n * q + r;
    if r == n - 1 {
      assert x + 1 == n * (q + 1);
      DivExact(q + 1, 0, n);
    } else {
      DivExact(q, r + 1, n);
    }
  }

  lemma DivExact(q: int, r: int, n: int)
    requires 0 <= r < n
    ensures (n * q + r) / n == q && (n * q + r) % n == r
  {
    var x := n * q + r;
    assert x == n * (x / n) + x % n;
    var k := x / n - q;
    assert n * k == r - x % n;
    assert k >= 1 ==> n * k >= n;
    assert k <= -1 ==> n * k <= -n;
  }

  lemma {:induction false} YearsAscend(a: int, b: int)
    requires a <= b
    ensures DayFromYear(b) - DayFromYear(a) >= 365 * (b - a)
    decreases b - a
  {
    if a < b {
      YearsAscend(a, b - 1);
      YearStep(b - 1);
    }
  }

  function YearUp(day: int, y: int): (r: int)
    requires DayFromYear(y) <= day
    ensures DayFromYear(r) <= day < DayFromYear(r + 1)
    decreases day - DayFromYear(y)
  {
    YearStep(y);
    if day < DayFromYear(y + 1) then y else YearUp(day, y + 1)
  }

  function YearDown(day: int, y: int): (r: int)
    requires day < DayFromYear(y + 1)
    ensures DayFromYear(r) <= day < DayFromYear(r + 1)
    decreases DayFromYear(y + 1) - day
  {
    YearStep(y);
    if DayFromYear(y) <= day then y else YearDown(day, y - 1)
  }

  /** The year whose first day is the last one not after `day`. */
  function YearFromDay(day: int): (r: int)
    ensures DayFromYear(r) <= day < DayFromYear(r + 1)
  {
    if DayFromYear(1970) <= day then YearUp(day, 1970) else YearDown(day, 1969)
  }

  lemma YearIsUnique(day: int, a: int, b: int)
    requires DayFromYear(a) <= day < DayFromYear(a + 1)
    requires DayFromYear(b) <= day < DayFromYear(b + 1)
    ensures a == b
  {
    if a < b { YearsAscend(a + 1, b); }
    if b < a { YearsAscend(b + 1, a); }
  }

  function MonthOf(within: int, leap: bool): (m0: int)
    requires 0 <= within < MonthStart(12, leap)
    ensures 0 <= m0 < 12 && MonthStart(m0, leap) <= within < MonthStart(m0 + 1, leap)
  {
    if within < MonthStart(1, leap) then 0
    else if within < MonthStart(2, leap) then 1
    else if within < MonthStart(3, leap) then 2
    else if within < MonthStart(4, leap) then 3
    else if within < MonthStart(5, leap) then 4
    else if within < MonthStart(6, leap) then 5
    else if within < MonthStart(7, leap) then 6
    else if within < MonthStart(8, leap) then 7
    else if within < MonthStart(9, leap) then 8
    else if within < MonthStart(10, leap) then 9
    else if within < MonthStart(11, leap) then 10
    else 11
  }

  /** The UTC fields of day number `day`; always a real date of the calendar. */
  function CivilOfDay(day: int): (c: CivilDate)
    ensures IsCivil(c) && MakeDay(c.year, c.month - 1, c.day) == day
  {
    var y := YearFromDay(day);
    YearStep(y);
    var within := day - DayFromYear(y);
    var m0 := MonthOf(within, IsLeap(y));
    CivilDate(y, m0 + 1, within - MonthStart(m0, IsLeap(y)) + 1)
  }

  /** Every real date is the date of exactly one day number. */
  lemma CivilRoundTrip(c: CivilDate)
    requires IsCivil(c)
    ensures CivilOfDay(MakeDay(c.year, c.month - 1, c.day)) == c
  {
    hide DayFromYear, IsLeap;
    var leap := IsLeap(c.year);
    var within := MonthStart(c.month - 1, leap) + c.day - 1;
    var day := MakeDay(c.year, c.month - 1, c.day);
    YearStep(c.year);
    YearIsUnique(day, c.year, YearFromDay(day));
    assert 0 <= within < MonthStart(12, leap);
  }

  predicate CivilLess(a: CivilDate, b: CivilDate) {
    a.year < b.year
    || (a.year == b.year && (a.month < b.month || (a.month == b.month && a.day < b.day)))
  }

  lemma CivilAscends(a: int, b: int)
    ensures a < b <==> CivilLess(CivilOfDay(a), CivilOfDay(b))
  {
    if a < b { CivilAscendsStrictly(a, b); }
    if b < a { CivilAscendsStrictly(b, a); }
  }

  lemma CivilAscendsStrictly(a: int, b: int)
    requires a < b
    ensures CivilLess(CivilOfDay(a), CivilOfDay(b))
  {
    hide DayFromYear, IsLeap;
    var ya, yb := YearFromDay(a), YearFromDay(b);
    if yb < ya { YearsAscend(yb + 1, ya); }
  }

  // ---------------------------------------------------------------------------
  // addCivilDays and dayOfWeekOf
  // ---------------------------------------------------------------------------

  function AddCivilDays(base: CivilDate, delta: int): CivilDate {
    CivilOfDay(UtcDay(base) + delta)
  }

  /** 0 = Sunday; day 0 (1970-01-01) was a Thursday. */
  function DayOfWeekOf(c: CivilDate): int {
    (UtcDay(c) + 4) % 7
  }

  /** The years `Date.UTC` does not read as another year. */
  predicate PlainYear(c: CivilDate) {
    !(0 <= c.year <= 99)
  }

  lemma ShortYearMoves(c: CivilDate)
    requires IsCivil(c)
    ensures UtcDay(c) == MakeDay(c.year, c.month - 1, c.day) <==> PlainYear(c)
  {
    if !PlainYear(c) {
      YearsAscend(c.year, c.year + 1900);
      assert MonthStart(c.month - 1, IsLeap(c.year)) - MonthStart(c.month - 1, IsLeap(c.year + 1900)) <= 1;
    }
  }

  /**
   * Adding days composes, on every input, exactly when the intermediate date is
   * not in one of the years 0 to 99, which `Date.UTC` moves to the 20th century.
   */
  lemma AddCivilDaysComposes(c: CivilDate, n: int, m: int)
    ensures AddCivilDays(AddCivilDays(c, n), m) == AddCivilDays(c, n + m) <==> PlainYear(AddCivilDays(c, n))
  {
    hide DayFromYear, IsLeap, MonthStart;
    var mid := AddCivilDays(c, n);
    ShortYearMoves(mid);
    var a, b := UtcDay(mid) + m, UtcDay(c) + n + m;
    assert CivilOfDay(a) == CivilOfDay(b) ==> a == b;
  }

  lemma WeekdayAdvances(c: CivilDate, n: int)
    requires PlainYear(AddCivilDays(c, n))
    ensures DayOfWeekOf(AddCivilDays(c, n)) == (DayOfWeekOf(c) + n) % 7
  {
    ShortYearMoves(AddCivilDays(c, n));
    var x := UtcDay(c) + 4;
    assert UtcDay(AddCivilDays(c, n)) + 4 == x + n;
    ModAdd(x, n);
  }

  lemma ModAdd(x: int, n: int)
    ensures (x + n) % 7 == (x % 7 + n) % 7
  {
    var q := x / 7;
    assert x + n == 7 * q + (x % 7 + n);
  }

  // ---------------------------------------------------------------------------
  // Time values
  // ---------------------------------------------------------------------------

  /** `Date.UTC`: fields beyond their usual range carry over. */
  function UtcMs(n: Naive): int {
    UtcDay(n.date) * MS_PER_DAY + n.hour * 3_600_000 + n.minute * 60_000 + n.second * 1000
  }

  /** The fields of time value `t`, dropping its milliseconds. */
  function FieldsOf(t: int): (n: Naive)
    ensures IsCivil(n.date) && 0 <= n.hour < 24 && 0 <= n.minute < 60 && 0 <= n.second < 60
  {
    var ms := t % MS_PER_DAY;
    Naive(CivilOfDay(t / MS_PER_DAY), ms / 3_600_000, ms / 60_000 % 60, ms / 1000 % 60)
  }

  /** Reading the fields of an instant and composing them again drops only its milliseconds. */
  lemma FieldsRoundTrip(t: int)
    requires PlainYear(FieldsOf(t).date)
    ensures UtcMs(FieldsOf(t)) == t - t % 1000
  {
    hide DayFromYear, IsLeap, MonthStart;
    ShortYearMoves(FieldsOf(t).date);
    var ms := t % MS_PER_DAY;
    assert ms / 60_000 == 60 * (ms / 3_600_000) + ms / 60_000 % 60;
    assert ms / 1000 == 60 * (ms / 60_000) + ms / 1000 % 60;
    assert ms % 1000 == t % 1000;
  }

  /** Composing in-range fields and reading them again gives them back. */
  lemma ComposeRoundTrip(n: Naive)
    requires IsCivil(n.date) && PlainYear(n.date)
    requires 0 <= n.hour < 24 && 0 <= n.minute < 60 && 0 <= n.second < 60
    ensures FieldsOf(UtcMs(n)) == n
  {
    hide DayFromYear, IsLeap, MonthStart, MakeDay, CivilOfDay, UtcDay, IsCivil;
    var ms := n.hour * 3_600_000 + n.minute * 60_000 + n.second * 1000;
    var day := UtcDay(n.date);
    assert CivilOfDay(day) == n.date by { CivilRoundTripUtc(n.date); }
    assert UtcMs(n) == MS_PER_DAY * day + ms;
    DivExact(day, ms, MS_PER_DAY);
    ClockFields(n.hour, n.minute, n.second);
  }

  lemma CivilRoundTripUtc(c: CivilDate)
    requires IsCivil(c) && PlainYear(c)
    ensures CivilOfDay(UtcDay(c)) == c
  {
    CivilRoundTrip(c);
  }

  lemma ClockFields(h: int, m: int, s: int)
    requires 0 <= h < 24 && 0 <= m < 60 && 0 <= s < 60
    ensures var ms := h * 3_600_000 + m * 60_000 + s * 1000;
      ms / 3_600_000 == h && ms / 60_000 % 60 == m && ms / 1000 % 60 == s
  {
    DivExact(h, m * 60_000 + s * 1000, 3_600_000);
    DivExact(60 * h + m, s * 1000, 60_000);
    DivExact(60 * (60 * h + m) + s, 0, 1000);
    DivExact(h, m, 60);
    DivExact(60 * h + m, s, 60);
  }
}
