// Fixed-width text forms of dates and clock times, and their order as strings.
module Text {
  import opened Calendar
  import opened Wrappers

  function DigitChar(d: int): char
    requires 0 <= d < 10
  {
    '0' + d as char
  }

  predicate IsDigit(c: char) {
    '0' <= c <= '9'
  }

  function DigitValue(c: char): int {
    c as int - '0' as int
  }

  /** `String(n)`. */
  function NumberString(n: int): string
    decreases if n < 0 then 1 - n else n
  {
    if n < 0 then "-" + NumberString(-n)
    else if n < 10 then [DigitChar(n)]
    else NumberString(n / 10) + [DigitChar(n % 10)]
  }

  /** The number that a row of digits stands for. */
  function ReadDigits(s: string): Option<nat>
    decreases |s|
  {
    if s == "" || !IsDigit(s[|s| - 1]) then None
    else if |s| == 1 then Some(DigitValue(s[0]))
    else
      var rest := ReadDigits(s[..|s| - 1]);
      if rest.Some? then Some(10 * rest.value + DigitValue(s[|s| - 1])) else None
  }

  /** The number that a decimal text, with a minus sign or without, stands for. */
  function ReadNumber(s: string): Option<int> {
    if s != "" && s[0] == '-' then
      var n := ReadDigits(s[1..]);
      if n.Some? then Some(-(n.value as int)) else None
    else ReadDigits(s)
  }

  lemma {:induction false} DigitsRoundTrip(n: nat)
    ensures ReadDigits(NumberString(n)) == Some(n) && NumberString(n) != "" && NumberString(n)[0] != '-'
    decreases n
  {
    var s := NumberString(n);
    if n >= 10 {
      DigitsRoundTrip(n / 10);
      assert s[..|s| - 1] == NumberString(n / 10) && s[|s| - 1] == DigitChar(n % 10);
    }
  }

  /** A printed number reads back. */
  lemma NumberRoundTrip(n: int)
    ensures ReadNumber(NumberString(n)) == Some(n)
  {
    hide ReadDigits;
    if n < 0 {
      DigitsRoundTrip(-n);
      assert NumberString(n)[1..] == NumberString(-n);
    } else {
      DigitsRoundTrip(n);
    }
  }

  function PadStart2(s: string): string {
    if |s| == 0 then "00" else if |s| == 1 then "0" + s else s
  }

  function Pad(n: int): string {
    PadStart2(NumberString(n))
  }

  lemma PadTwoDigits(n: int)
    requires 0 <= n < 100
    ensures Pad(n) == [DigitChar(n / 10), DigitChar(n % 10)]
  {
    if n >= 10 {
      assert NumberString(n / 10) == [DigitChar(n / 10)];
    }
  }

  lemma FourDigits(y: int)
    requires 1000 <= y <= 9999
    ensures NumberString(y) == [DigitChar(y / 1000), DigitChar(y / 100 % 10), DigitChar(y / 10 % 10), DigitChar(y % 10)]
  {
    var a, b := y / 10, y / 100;
    assert b == a / 10 && y / 1000 == b / 10;
    assert NumberString(b / 10) == [DigitChar(b / 10)];
    assert NumberString(b) == [DigitChar(b / 10), DigitChar(b % 10)];
    assert NumberString(a) == NumberString(b) + [DigitChar(a % 10)];
    assert NumberString(y) == NumberString(a) + [DigitChar(y % 10)];
  }

  // ---------------------------------------------------------------------------
  // Comparing strings
  // ---------------------------------------------------------------------------

  /** Code-unit order of strings. */
  predicate StringLess(a: string, b: string)
    decreases |a|
  {
    if a == [] then b != []
    else b != [] && (a[0] < b[0] || (a[0] == b[0] && StringLess(a[1..], b[1..])))
  }

  lemma {:induction false} StringLessFirstDifference(a: string, b: string, p: string, q: string)
    requires |a| == |b|
    ensures StringLess(a + p, b + q) == if a == b then StringLess(p, q) else StringLess(a, b)
    decreases |a|
  {
    if a == [] {
      assert a + p == p && b + q == q;
    } else {
      assert (a + p)[1..] == a[1..] + p && (b + q)[1..] == b[1..] + q;
      assert a == [a[0]] + a[1..] && b == [b[0]] + b[1..];
      StringLessFirstDifference(a[1..], b[1..], p, q);
    }
  }

  lemma {:induction false} StringOrderIsTotal(a: string, b: string)
    ensures a == b ==> !StringLess(a, b)
    ensures a != b ==> StringLess(a, b) != StringLess(b, a)
    decreases |a|
  {
    if a != [] && b != [] {
      assert a == [a[0]] + a[1..] && b == [b[0]] + b[1..];
      StringOrderIsTotal(a[1..], b[1..]);
    }
  }

  lemma {:induction false} StringOrderIsTransitive(a: string, b: string, c: string)
    requires StringLess(a, b) && StringLess(b, c)
    ensures StringLess(a, c)
    decreases |a|
  {
    if a != [] && a[0] == b[0] && b[0] == c[0] {
      StringOrderIsTransitive(a[1..], b[1..], c[1..]);
    }
  }

  lemma PadAscends(m: int, n: int)
    requires 0 <= m < 100 && 0 <= n < 100
    ensures Pad(m) == Pad(n) <==> m == n
    ensures StringLess(Pad(m), Pad(n)) <==> m < n
  {
    PadTwoDigits(m);
    PadTwoDigits(n);
    var a, b := Pad(m), Pad(n);
    assert a[1..] == [a[1]] && b[1..] == [b[1]];
    assert a[1..][1..] == [] && b[1..][1..] == [];
    assert StringLess(a[1..], b[1..]) <==> a[1] < b[1];
  }

  lemma YearDigits(y: int)
    ensures y / 1000 == y / 100 / 10 && y / 10 % 10 == y % 100 / 10 && y % 10 == y % 100 % 10
    ensures y == 100 * (y / 100) + y % 100
  {
    var q, r := y / 100, y % 100;
    DivExact(q / 10, 100 * (q % 10) + r, 1000);
    DivExact(10 * q + r / 10, r % 10, 10);
    DivExact(q, r / 10, 10);
  }

  lemma YearIsTwoPads(y: int)
    requires 1000 <= y <= 9999
    ensures NumberString(y) == Pad(y / 100) + Pad(y % 100) && |Pad(y / 100)| == |Pad(y % 100)| == 2
  {
    hide NumberString, Pad;
    FourDigits(y);
    PadTwoDigits(y / 100);
    PadTwoDigits(y % 100);
    YearDigits(y);
  }

  lemma YearAscends(m: int, n: int)
    requires 1000 <= m <= 9999 && 1000 <= n <= 9999
    ensures |NumberString(m)| == |NumberString(n)| == 4
    ensures NumberString(m) == NumberString(n) <==> m == n
    ensures StringLess(NumberString(m), NumberString(n)) <==> m < n
  {
    hide NumberString, Pad, StringLess;
    YearIsTwoPads(m);
    YearIsTwoPads(n);
    PadAscends(m / 100, n / 100);
    PadAscends(m % 100, n % 100);
    StringLessFirstDifference(Pad(m / 100), Pad(n / 100), Pad(m % 100), Pad(n % 100));
  }

  // ---------------------------------------------------------------------------
  // Date keys
  // ---------------------------------------------------------------------------

  function DateKey(c: CivilDate): string {
    NumberString(c.year) + ("-" + (Pad(c.month) + ("-" + Pad(c.day))))
  }

  predicate FourDigitYear(c: CivilDate) {
    1000 <= c.year <= 9999
  }

  lemma DateKeyLess(a: CivilDate, b: CivilDate)
    requires IsCivil(a) && IsCivil(b) && FourDigitYear(a) && FourDigitYear(b)
    ensures StringLess(DateKey(a), DateKey(b)) <==> CivilLess(a, b)
  {
    YearAscends(a.year, b.year);
    PadAscends(a.month, b.month);
    PadAscends(a.day, b.day);
    PadTwoDigits(a.month);
    PadTwoDigits(b.month);
    StringLessFirstDifference(NumberString(a.year), NumberString(b.year),
      "-" + (Pad(a.month) + ("-" + Pad(a.day))), "-" + (Pad(b.month) + ("-" + Pad(b.day))));
    StringLessFirstDifference("-", "-", Pad(a.month) + ("-" + Pad(a.day)), Pad(b.month) + ("-" + Pad(b.day)));
    StringLessFirstDifference(Pad(a.month), Pad(b.month), "-" + Pad(a.day), "-" + Pad(b.day));
    StringLessFirstDifference("-", "-", Pad(a.day), Pad(b.day));
  }

  /** No two dates have one key. */
  lemma DateKeysDiffer(a: CivilDate, b: CivilDate)
    requires IsCivil(a) && IsCivil(b) && DateKey(a) == DateKey(b)
    ensures a == b
  {
    hide NumberString, Pad;
    MonthAndDayPads(a);
    MonthAndDayPads(b);
    var k, p, q := DateKey(a), NumberString(a.year), NumberString(b.year);
    assert |k| == |p| + 6 == |q| + 6;
    assert k[..|p|] == p && k[..|q|] == q;
    assert k[|k| - 5..|k| - 3] == Pad(a.month) == Pad(b.month) && k[|k| - 2..] == Pad(a.day) == Pad(b.day);
    NumberRoundTrip(a.year);
    NumberRoundTrip(b.year);
    PadAscends(a.month, b.month);
    PadAscends(a.day, b.day);
  }

  lemma MonthAndDayPads(c: CivilDate)
    requires IsCivil(c)
    ensures 0 <= c.month < 100 && 0 <= c.day < 100 && |Pad(c.month)| == |Pad(c.day)| == 2
  {
    PadTwoDigits(c.month);
    PadTwoDigits(c.day);
  }

  /** For four-digit years, key order and key equality are those of the dates. */
  lemma DateKeyAscends(a: CivilDate, b: CivilDate)
    requires IsCivil(a) && IsCivil(b) && FourDigitYear(a) && FourDigitYear(b)
    ensures StringLess(DateKey(a), DateKey(b)) <==> CivilLess(a, b)
    ensures DateKey(a) == DateKey(b) <==> a == b
  {
    hide DateKey, StringLess;
    DateKeyLess(a, b);
    DateKeyLess(b, a);
    StringOrderIsTotal(DateKey(a), DateKey(b));
  }

  // ---------------------------------------------------------------------------
  // Clock times
  // ---------------------------------------------------------------------------

  /** The pattern HH:mm, 24 hours, that the transfer objects demand. */
  predicate IsTimeOfDay(s: string) {
    && |s| == 5 && IsDigit(s[0]) && IsDigit(s[1]) && s[2] == ':' && IsDigit(s[3]) && IsDigit(s[4])
    && (s[0] <= '1' || (s[0] == '2' && s[1] <= '3'))
    && s[3] <= '5'
  }

  type TimeOfDay = s: string | IsTimeOfDay(s) witness "00:00"

  function MinutesOf(t: TimeOfDay): (m: int)
    ensures 0 <= m < 1440
  {
    (10 * DigitValue(t[0]) + DigitValue(t[1])) * 60 + 10 * DigitValue(t[3]) + DigitValue(t[4])
  }

  function MinutesToHHMM(m: int): string {
    Pad(m / 60) + ":" + Pad(m % 60)
  }

  /** Printing minutes and reading them back is the identity within a day. */
  lemma HHMMRoundTrip(m: int)
    requires 0 <= m < 1440
    ensures IsTimeOfDay(MinutesToHHMM(m)) && MinutesOf(MinutesToHHMM(m)) == m
  {
    PadTwoDigits(m / 60);
    PadTwoDigits(m % 60);
  }

  lemma TimeIsPrinted(t: TimeOfDay)
    ensures t == MinutesToHHMM(MinutesOf(t))
  {
    var h, m := 10 * DigitValue(t[0]) + DigitValue(t[1]), 10 * DigitValue(t[3]) + DigitValue(t[4]);
    assert MinutesOf(t) / 60 == h && MinutesOf(t) % 60 == m;
    PadTwoDigits(h);
    PadTwoDigits(m);
  }

  /** Comparing times as strings is comparing them as minutes. */
  lemma TimesAscend(a: TimeOfDay, b: TimeOfDay)
    ensures StringLess(a, b) <==> MinutesOf(a) < MinutesOf(b)
    ensures a == b <==> MinutesOf(a) == MinutesOf(b)
  {
    TimeIsPrinted(a);
    TimeIsPrinted(b);
    var x, y := MinutesOf(a), MinutesOf(b);
    PadTwoDigits(x / 60);
    PadTwoDigits(y / 60);
    PadAscends(x / 60, y / 60);
    PadAscends(x % 60, y % 60);
    assert a == Pad(x / 60) + (":" + Pad(x % 60)) && b == Pad(y / 60) + (":" + Pad(y % 60));
    StringLessFirstDifference(Pad(x / 60), Pad(y / 60), ":" + Pad(x % 60), ":" + Pad(y % 60));
    StringLessFirstDifference(":", ":", Pad(x % 60), Pad(y % 60));
  }

  // ---------------------------------------------------------------------------
  // Wall-clock strings
  // ---------------------------------------------------------------------------

  /** White space and line ends that `trim` removes. */
  predicate IsSpace(c: char) {
    c in "\t\n\r " || c as int in {0x0B, 0x0C, 0xA0, 0x1680, 0x2028, 0x2029, 0x202F, 0x205F, 0x3000, 0xFEFF}
    || 0x2000 <= c as int <= 0x200A
  }

  function TrimStart(s: string): string {
    if s != [] && IsSpace(s[0]) then TrimStart(s[1..]) else s
  }

  function TrimEnd(s: string): string {
    if s != [] && IsSpace(s[|s| - 1]) then TrimEnd(s[..|s| - 1]) else s
  }

  function Trim(s: string): string {
    TrimEnd(TrimStart(s))
  }

  predicate TwoDigitsAt(s: string, i: nat) {
    i + 1 < |s| && IsDigit(s[i]) && IsDigit(s[i + 1])
  }

  function TwoDigitValue(s: string, i: nat): int
    requires i + 1 < |s|
  {
    10 * DigitValue(s[i]) + DigitValue(s[i + 1])
  }

  lemma DigitsWithin(s: string, part: string, from: nat, i: nat)
    requires from + |part| <= |s| && s[from..from + |part|] == part && TwoDigitsAt(part, i)
    ensures TwoDigitsAt(s, from + i) && TwoDigitValue(s, from + i) == TwoDigitValue(part, i)
  {
    assert s[from + i] == part[i] && s[from + i + 1] == part[i + 1];
  }

  lemma TwoDigitsRead(s: string, i: nat, n: int)
    requires i + 1 < |s| && 0 <= n < 100 && s[i] == DigitChar(n / 10) && s[i + 1] == DigitChar(n % 10)
    ensures TwoDigitsAt(s, i) && TwoDigitValue(s, i) == n
  {
  }

  /**
   * The fields of a wall-clock time `YYYY-MM-DD[T ]HH:mm[:ss]`, or None where the
   * source throws. Text after the match is ignored and no field range is checked.
   */
  function ParseNaive(wall: string): Option<Naive> {
    var s := Trim(wall);
    if && TwoDigitsAt(s, 0) && TwoDigitsAt(s, 2) && TwoDigitsAt(s, 5) && TwoDigitsAt(s, 8)
       && TwoDigitsAt(s, 11) && TwoDigitsAt(s, 14)
       && s[4] == '-' && s[7] == '-' && (s[10] == 'T' || s[10] == ' ') && s[13] == ':'
    then
      var date := CivilDate(100 * TwoDigitValue(s, 0) + TwoDigitValue(s, 2), TwoDigitValue(s, 5), TwoDigitValue(s, 8));
      var second := if TwoDigitsAt(s, 17) && s[16] == ':' then TwoDigitValue(s, 17) else 0;
      Some(Naive(date, TwoDigitValue(s, 11), TwoDigitValue(s, 14), second))
    else None
  }

  function WallString(n: Naive): string {
    DateKey(n.date) + "T" + Pad(n.hour) + ":" + Pad(n.minute)
  }

  lemma WallLayout(n: Naive)
    requires IsCivil(n.date) && FourDigitYear(n.date) && 0 <= n.hour < 24 && 0 <= n.minute < 60
    ensures var y, c := n.date.year, n.date;
      WallString(n) == [DigitChar(y / 1000), DigitChar(y / 100 % 10), DigitChar(y / 10 % 10), DigitChar(y % 10), '-',
        DigitChar(c.month / 10), DigitChar(c.month % 10), '-', DigitChar(c.day / 10), DigitChar(c.day % 10), 'T',
        DigitChar(n.hour / 10), DigitChar(n.hour % 10), ':', DigitChar(n.minute / 10), DigitChar(n.minute % 10)]
  {
    hide NumberString, Pad, DigitChar;
    FourDigits(n.date.year);
    PadTwoDigits(n.date.month);
    PadTwoDigits(n.date.day);
    PadTwoDigits(n.hour);
    PadTwoDigits(n.minute);
  }

  lemma TooShort(s: string)
    requires |s| <= 17
    ensures !TwoDigitsAt(s, 17)
  {
  }

  lemma WallDigits(n: Naive)
    requires IsCivil(n.date) && FourDigitYear(n.date) && 0 <= n.hour < 24 && 0 <= n.minute < 60
    ensures var s := WallString(n);
      && |s| == 16 && s[4] == '-' && s[7] == '-' && s[10] == 'T' && s[13] == ':' && !IsSpace(s[0]) && !IsSpace(s[15])
      && TwoDigitsAt(s, 0) && TwoDigitValue(s, 0) == n.date.year / 100 && TwoDigitsAt(s, 2) && TwoDigitValue(s, 2) == n.date.year % 100
      && TwoDigitsAt(s, 5) && TwoDigitValue(s, 5) == n.date.month && TwoDigitsAt(s, 8) && TwoDigitValue(s, 8) == n.date.day
      && TwoDigitsAt(s, 11) && TwoDigitValue(s, 11) == n.hour && TwoDigitsAt(s, 14) && TwoDigitValue(s, 14) == n.minute
  {
    hide NumberString, Pad, DateKey, WallString, TwoDigitsAt, TwoDigitValue;
    WallLayout(n);
    var s, y := WallString(n), n.date.year;
    YearDigits(y);
    TwoDigitsRead(s, 0, y / 100);
    TwoDigitsRead(s, 2, y % 100);
    TwoDigitsRead(s, 5, n.date.month);
    TwoDigitsRead(s, 8, n.date.day);
    TwoDigitsRead(s, 11, n.hour);
    TwoDigitsRead(s, 14, n.minute);
  }

  lemma TrimNothing(s: string)
    requires s != "" && !IsSpace(s[0]) && !IsSpace(s[|s| - 1])
    ensures Trim(s) == s
  {
  }

  /** Printing a wall time to the minute and parsing it gives its fields back. */
  lemma WallRoundTrip(n: Naive)
    requires IsCivil(n.date) && FourDigitYear(n.date) && 0 <= n.hour < 24 && 0 <= n.minute < 60
    ensures ParseNaive(WallString(n)) == Some(n.(second := 0))
  {
    hide WallString, TwoDigitsAt, TwoDigitValue, IsSpace, Trim, IsCivil;
    WallDigits(n);
    TrimNothing(WallString(n));
    TooShort(WallString(n));
    YearDigits(n.date.year);
  }

  function LongWall(n: Naive, separator: char, rest: string): string {
    DateKey(n.date) + [separator] + Pad(n.hour) + ":" + Pad(n.minute) + (":" + Pad(n.second) + rest)
  }

  lemma LongLayout(n: Naive, separator: char, rest: string)
    requires IsCivil(n.date) && FourDigitYear(n.date) && 0 <= n.hour < 24 && 0 <= n.minute < 60 && 0 <= n.second < 60
    ensures |LongWall(n, separator, rest)| == 19 + |rest| && LongWall(n, separator, rest)[19..] == rest
    ensures LongWall(n, separator, rest)[..10] == WallString(n)[..10] && LongWall(n, separator, rest)[11..16] == WallString(n)[11..]
    ensures LongWall(n, separator, rest)[10] == separator && LongWall(n, separator, rest)[16..19] == ":" + Pad(n.second)
    ensures |WallString(n)| == 16 && |Pad(n.second)| == 2
  {
    hide NumberString, Pad;
    YearAscends(n.date.year, n.date.year);
    MonthAndDayPads(n.date);
    PadTwoDigits(n.hour);
    PadTwoDigits(n.minute);
    PadTwoDigits(n.second);
  }

  /** The other forms: either separator, seconds, and anything after them. */
  lemma WallWithSecondsParses(n: Naive, separator: char, rest: string)
    requires IsCivil(n.date) && FourDigitYear(n.date) && 0 <= n.hour < 24 && 0 <= n.minute < 60 && 0 <= n.second < 60
    requires separator == 'T' || separator == ' '
    requires rest == "" || !IsSpace(rest[|rest| - 1])
    ensures ParseNaive(LongWall(n, separator, rest)) == Some(n)
  {
    hide Pad, LongWall, WallString, TwoDigitsAt, TwoDigitValue, IsSpace, Trim, ParseNaive, DigitChar, IsCivil;
    var s, wall := LongWall(n, separator, rest), WallString(n);
    LongLayout(n, separator, rest);
    WallDigits(n);
    PadTwoDigits(n.second);
    CopiesDigits(wall, s, 0, 0, 10);
    CopiesDigits(wall, s, 2, 0, 10);
    CopiesDigits(wall, s, 5, 0, 10);
    CopiesDigits(wall, s, 8, 0, 10);
    CopiesDigits(wall, s, 11, 11, 16);
    CopiesDigits(wall, s, 14, 11, 16);
    assert s[17] == s[16..19][1] && s[18] == s[16..19][2] && s[16] == s[16..19][0];
    TwoDigitsRead(s, 17, n.second);
    YearDigits(n.date.year);
    assert s[4] == s[..10][4] && s[7] == s[..10][7] && s[0] == s[..10][0] && s[13] == s[11..16][2];
    DigitsAreNoSpace(s[18], n.second % 10);
    assert s[|s| - 1] == if rest == "" then s[18] else s[19..][|rest| - 1];
    TrimNothing(s);
    FieldsParse(s, n);
  }

  lemma CopiesDigits(s: string, t: string, i: nat, from: nat, to: nat)
    requires from <= i && i + 2 <= to <= |s| && to <= |t| && s[from..to] == t[from..to] && TwoDigitsAt(s, i)
    ensures TwoDigitsAt(t, i) && TwoDigitValue(t, i) == TwoDigitValue(s, i)
  {
    assert s[i] == s[from..to][i - from] && s[i + 1] == s[from..to][i + 1 - from];
    assert t[i] == t[from..to][i - from] && t[i + 1] == t[from..to][i + 1 - from];
  }

  lemma DigitsAreNoSpace(c: char, d: int)
    requires 0 <= d < 10 && c == DigitChar(d)
    ensures !IsSpace(c)
  {
  }

  lemma FieldsParse(s: string, n: Naive)
    requires |s| >= 19 && Trim(s) == s && s[4] == '-' && s[7] == '-' && (s[10] == 'T' || s[10] == ' ') && s[13] == ':' && s[16] == ':'
    requires TwoDigitsAt(s, 0) && TwoDigitsAt(s, 2) && 100 * TwoDigitValue(s, 0) + TwoDigitValue(s, 2) == n.date.year
    requires TwoDigitsAt(s, 5) && TwoDigitValue(s, 5) == n.date.month && TwoDigitsAt(s, 8) && TwoDigitValue(s, 8) == n.date.day
    requires TwoDigitsAt(s, 11) && TwoDigitValue(s, 11) == n.hour && TwoDigitsAt(s, 14) && TwoDigitValue(s, 14) == n.minute
    requires TwoDigitsAt(s, 17) && TwoDigitValue(s, 17) == n.second
    ensures ParseNaive(s) == Some(n)
  {
    hide TwoDigitsAt, TwoDigitValue, Trim;
  }

  lemma WallStringsDiffer(a: Naive, b: Naive)
    requires IsCivil(a.date) && FourDigitYear(a.date) && 0 <= a.hour < 24 && 0 <= a.minute < 60 && a.second == 0
    requires IsCivil(b.date) && FourDigitYear(b.date) && 0 <= b.hour < 24 && 0 <= b.minute < 60 && b.second == 0
    requires WallString(a) == WallString(b)
    ensures a == b
  {
    hide WallString, ParseNaive;
    WallRoundTrip(a);
    WallRoundTrip(b);
  }
}
