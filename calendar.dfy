/**
 * The proleptic Gregorian calendar of Python's `datetime`, at minute
 * resolution. A `DateTime` is a calendar date plus a minute of the day;
 * `Instant` numbers minutes on one line (day 1 is 0001-01-01, as in
 * `date.toordinal()`), so that `start + timedelta(minutes=n)` and the
 * comparisons `dateutil` makes can be stated as integer arithmetic.
 */
module Calendar {
  import opened Wrappers
  import opened Text

  const MinutesPerDay: int := 1440
  /** `datetime.MAXYEAR`: no date-time after year 9999 exists. */
  const MaxYear: int := 9999

  datatype Date = Date(year: int, month: int, day: int)

  /** A date and the minute of that day (0 to 1439). */
  datatype DateTime = DateTime(date: Date, minute: int)

  predicate IsLeapYear(y: int) {
    y % 4 == 0 && (y % 100 != 0 || y % 400 == 0)
  }

  function DaysInMonth(y: int, m: int): (n: int)
    requires 1 <= m <= 12
    ensures 28 <= n <= 31
  {
    if m == 2 then (if IsLeapYear(y) then 29 else 28)
    else if m == 4 || m == 6 || m == 9 || m == 11 then 30
    else 31
  }

  function DaysInYear(y: int): int {
    if IsLeapYear(y) then 366 else 365
  }

  predicate ValidDate(d: Date) {
    1 <= d.month <= 12 && 1 <= d.day <= DaysInMonth(d.year, d.month)
  }

  predicate ValidDateTime(t: DateTime) {
    ValidDate(t.date) && 0 <= t.minute < MinutesPerDay
  }

  /** The number of days in the years before year `y` (floor division makes it right for every year). */
  function DaysBeforeYear(y: int): int {
    var p := y - 1;
    365 * p + p / 4 - p / 100 + p / 400
  }

  /** The number of days in year `y` before the first day of month `m` (13 stands for the next year). */
  function DaysBeforeMonth(y: int, m: int): int
    requires 1 <= m <= 13
  {
    var common :=
      match m
      case 1 => 0 case 2 => 31 case 3 => 59 case 4 => 90 case 5 => 120
      case 6 => 151 case 7 => 181 case 8 => 212 case 9 => 243 case 10 => 273
      case 11 => 304 case 12 => 334 case _ => 365;
    common + (if m > 2 && IsLeapYear(y) then 1 else 0)
  }

  /** Day number of a date, 0001-01-01 being day 1 (Python's `date.toordinal`). */
  function Ordinal(d: Date): int
    requires 1 <= d.month <= 12
  {
    DaysBeforeYear(d.year) + DaysBeforeMonth(d.year, d.month) + d.day
  }

  /** Minute number of a date-time on the same line as `Ordinal`. */
  function Instant(t: DateTime): int
    requires 1 <= t.date.month <= 12
  {
    Ordinal(t.date) * MinutesPerDay + t.minute
  }

  // ---------------------------------------------------------------------------
  // Year and month lengths

  lemma FloorSteps(q: int)
    ensures q / 4 - (q - 1) / 4 == if q % 4 == 0 then 1 else 0
    ensures q / 100 - (q - 1) / 100 == if q % 100 == 0 then 1 else 0
    ensures q / 400 - (q - 1) / 400 == if q % 400 == 0 then 1 else 0
  {
  }

  lemma CenturyIsQuadrennial(y: int)
    ensures y % 100 == 0 ==> y % 4 == 0
    ensures y % 400 == 0 ==> y % 100 == 0
  {
    if y % 100 == 0 {
      var k := 25 * (y / 100);
      assert y == 4 * k;
    }
    if y % 400 == 0 {
      var k := 4 * (y / 400);
      assert y == 100 * k;
    }
  }

  /** A year holds exactly its own number of days. */
  lemma YearLength(y: int)
    ensures DaysBeforeYear(y + 1) == DaysBeforeYear(y) + DaysInYear(y)
    ensures DaysBeforeMonth(y, 13) == DaysInYear(y)
  {
    FloorSteps(y);
    CenturyIsQuadrennial(y);
  }

  /** A month holds exactly its own number of days. */
  lemma MonthLength(y: int, m: int)
    requires 1 <= m <= 12
    ensures DaysBeforeMonth(y, m + 1) == DaysBeforeMonth(y, m) + DaysInMonth(y, m)
  {
  }

  lemma MonthsBefore(y: int, m1: int, m2: int)
    requires 1 <= m1 < m2 <= 13
    ensures DaysBeforeMonth(y, m1) + DaysInMonth(y, m1) <= DaysBeforeMonth(y, m2)
  {
  }

  /** Later years start later: by at least 365 days per year. */
  lemma {:induction false} DaysBeforeYearMonotone(a: int, b: int)
    requires a <= b
    ensures DaysBeforeYear(a) + 365 * (b - a) <= DaysBeforeYear(b)
    decreases b - a
  {
    if a < b {
      DaysBeforeYearMonotone(a, b - 1);
      YearLength(b - 1);
    }
  }

  /** The day number of a date lies within its year's range of day numbers. */
  lemma OrdinalWithinYear(d: Date)
    requires ValidDate(d)
    ensures DaysBeforeYear(d.year) < Ordinal(d) <= DaysBeforeYear(d.year + 1)
  {
    MonthsBefore(d.year, d.month, 13);
    YearLength(d.year);
  }

  // ---------------------------------------------------------------------------
  // Order

  /** Python's comparison of dates: by year, then month, then day. */
  predicate DateBefore(a: Date, b: Date) {
    a.year < b.year
    || (a.year == b.year && a.month < b.month)
    || (a.year == b.year && a.month == b.month && a.day < b.day)
  }

  /** Python's comparison of date-times: by date, then time of day. */
  predicate DateTimeBefore(a: DateTime, b: DateTime) {
    DateBefore(a.date, b.date) || (a.date == b.date && a.minute < b.minute)
  }

  lemma OrdinalMonotone(a: Date, b: Date)
    requires ValidDate(a) && ValidDate(b) && DateBefore(a, b)
    ensures Ordinal(a) < Ordinal(b)
  {
    if a.year < b.year {
      OrdinalWithinYear(a);
      OrdinalWithinYear(b);
      DaysBeforeYearMonotone(a.year + 1, b.year);
    } else if a.month < b.month {
      MonthsBefore(a.year, a.month, b.month);
    }
  }

  /** Day numbers order valid dates exactly as Python compares them. */
  lemma OrdinalOrder(a: Date, b: Date)
    requires ValidDate(a) && ValidDate(b)
    ensures DateBefore(a, b) <==> Ordinal(a) < Ordinal(b)
    ensures a == b <==> Ordinal(a) == Ordinal(b)
  {
    if DateBefore(a, b) {
      OrdinalMonotone(a, b);
    } else if DateBefore(b, a) {
      OrdinalMonotone(b, a);
    }
  }

  /** Minute numbers order valid date-times exactly as Python compares them. */
  lemma InstantOrder(a: DateTime, b: DateTime)
    requires ValidDateTime(a) && ValidDateTime(b)
    ensures DateTimeBefore(a, b) <==> Instant(a) < Instant(b)
    ensures a == b <==> Instant(a) == Instant(b)
  {
    OrdinalOrder(a.date, b.date);
  }

  // ---------------------------------------------------------------------------
  // Arithmetic

  function FirstOfNextMonth(d: Date): (r: Date)
    requires ValidDate(d)
    ensures ValidDate(r) && Ordinal(r) == DaysBeforeYear(d.year) + DaysBeforeMonth(d.year, d.month) + DaysInMonth(d.year, d.month) + 1
  {
    MonthLength(d.year, d.month);
    YearLength(d.year);
    if d.month == 12 then Date(d.year + 1, 1, 1) else Date(d.year, d.month + 1, 1)
  }

  function LastOfPreviousMonth(d: Date): (r: Date)
    requires ValidDate(d)
    ensures ValidDate(r) && Ordinal(r) == DaysBeforeYear(d.year) + DaysBeforeMonth(d.year, d.month)
  {
    if d.month == 1 then
      YearLength(d.year - 1);
      Date(d.year - 1, 12, 31)
    else
      MonthLength(d.year, d.month - 1);
      Date(d.year, d.month - 1, DaysInMonth(d.year, d.month - 1))
  }

  /** `d + timedelta(days=n)`, walking month by month. */
  function AddDays(d: Date, n: int): (r: Date)
    requires ValidDate(d)
    ensures ValidDate(r) && Ordinal(r) == Ordinal(d) + n
    decreases if n >= 0 then n else -n
  {
    if n >= 0 then
      if d.day + n <= DaysInMonth(d.year, d.month) then d.(day := d.day + n)
      else AddDays(FirstOfNextMonth(d), n - (DaysInMonth(d.year, d.month) - d.day + 1))
    else
      if d.day + n >= 1 then d.(day := d.day + n)
      else AddDays(LastOfPreviousMonth(d), n + d.day)
  }

  /** `t + timedelta(minutes=n)`. */
  function AddMinutes(t: DateTime, n: int): (r: DateTime)
    requires ValidDateTime(t)
    ensures ValidDateTime(r) && Instant(r) == Instant(t) + n
  {
    var total := t.minute + n;
    DateTime(AddDays(t.date, total / MinutesPerDay), total % MinutesPerDay)
  }

  // ---------------------------------------------------------------------------
  // ISO 8601 text

  function Pad2(n: int): (s: string)
    requires 0 <= n < 100
    ensures |s| == 2 && AllDigits(s) && DigitsValue(s) == n
  {
    var s := [DigitChar(n / 10), DigitChar(n % 10)];
    assert s[..1] == [s[0]] && [s[0]][..0] == [];
    assert DigitsValue(s[..1]) == DigitValue(s[0]);
    s
  }

  function Pad4(n: int): (s: string)
    requires 0 <= n < 10000
    ensures |s| == 4 && AllDigits(s) && DigitsValue(s) == n
  {
    var hi, lo := Pad2(n / 100), Pad2(n % 100);
    var s := hi + lo;
    assert s[..3][..2] == hi && s[..3][2] == lo[0] && lo[..1] == [lo[0]];
    assert DigitsValue(s[..3]) == DigitsValue(hi) * 10 + DigitValue(lo[0]);
    assert DigitsValue(lo) == DigitValue(lo[0]) * 10 + DigitValue(lo[1]);
    assert DigitsValue(s) == DigitsValue(s[..3]) * 10 + DigitValue(lo[1]);
    s
  }

  predicate Representable(d: Date) {
    ValidDate(d) && 1 <= d.year <= MaxYear
  }

  /** `date.isoformat()`: `YYYY-MM-DD`. */
  function DateText(d: Date): (s: string)
    requires Representable(d)
    ensures |s| == 10
  {
    Pad4(d.year) + "-" + Pad2(d.month) + "-" + Pad2(d.day)
  }

  /** A time of day as `HH:mm`. */
  function TimeText(minute: int): (s: string)
    requires 0 <= minute < MinutesPerDay
    ensures |s| == 5
  {
    Pad2(minute / 60) + ":" + Pad2(minute % 60)
  }

  /** `datetime.isoformat()` for a naive date-time with no seconds: `YYYY-MM-DDTHH:MM:00`. */
  function IsoFormat(t: DateTime): (s: string)
    requires Representable(t.date) && 0 <= t.minute < MinutesPerDay
    ensures |s| == 19
  {
    DateText(t.date) + "T" + TimeText(t.minute) + ":00"
  }

  /** Reads `YYYY-MM-DD` (the form JavaScript's `new Date` reads as a calendar date); anything else is `None`. */
  function ParseDate(s: string): (r: Option<Date>)
    ensures r.Some? ==> Representable(r.value)
  {
    if |s| == 10 && s[4] == '-' && s[7] == '-'
       && AllDigits(s[..4]) && AllDigits(s[5..7]) && AllDigits(s[8..])
    then
      var d := Date(DigitsValue(s[..4]), DigitsValue(s[5..7]), DigitsValue(s[8..]));
      if Representable(d) then Some(d) else None
    else None
  }

  /** Reading the text of a date gives the date back. */
  lemma ParseDateText(d: Date)
    requires Representable(d)
    ensures ParseDate(DateText(d)) == Some(d)
  {
    var s := DateText(d);
    assert s[..4] == Pad4(d.year);
    assert s[5..7] == Pad2(d.month);
    assert s[8..] == Pad2(d.day);
  }

  /** A text that reads as a date is exactly that date's text. */
  lemma DateTextParse(s: string)
    requires ParseDate(s).Some?
    ensures DateText(ParseDate(s).value) == s
  {
    var d := ParseDate(s).value;
    DigitsDetermine(s[..4], Pad4(d.year));
    DigitsDetermine(s[5..7], Pad2(d.month));
    DigitsDetermine(s[8..], Pad2(d.day));
    assert s == s[..4] + "-" + s[5..7] + "-" + s[8..];
  }

  /** Reads `HH:mm` as a minute of the day; anything else is `None`. */
  function ParseTime(s: string): (r: Option<int>)
    ensures r.Some? ==> 0 <= r.value < MinutesPerDay
  {
    if |s| == 5 && s[2] == ':' && AllDigits(s[..2]) && AllDigits(s[3..])
       && DigitsValue(s[..2]) < 24 && DigitsValue(s[3..]) < 60
    then Some(DigitsValue(s[..2]) * 60 + DigitsValue(s[3..]))
    else None
  }

  /** Reading the text of a time of day gives it back. */
  lemma ParseTimeText(minute: int)
    requires 0 <= minute < MinutesPerDay
    ensures ParseTime(TimeText(minute)) == Some(minute)
  {
    var s := TimeText(minute);
    assert s[..2] == Pad2(minute / 60);
    assert s[3..] == Pad2(minute % 60);
  }

  /** A text that reads as a time of day is exactly that time's text. */
  lemma TimeTextParse(s: string)
    requires ParseTime(s).Some?
    ensures TimeText(ParseTime(s).value) == s
  {
    var m := ParseTime(s).value;
    var h, mm := DigitsValue(s[..2]), DigitsValue(s[3..]);
    assert m / 60 == h && m % 60 == mm;
    DigitsDetermine(s[..2], Pad2(h));
    DigitsDetermine(s[3..], Pad2(mm));
    assert s == s[..2] + ":" + s[3..];
  }

  /** The ISO text of a date-time holds the date's text before the `T` and the time's text after it. */
  lemma IsoFormatParts(t: DateTime)
    requires Representable(t.date) && 0 <= t.minute < MinutesPerDay
    ensures IsoFormat(t)[..10] == DateText(t.date) && IsoFormat(t)[10] == 'T'
    ensures IsoFormat(t)[11..16] == TimeText(t.minute)
    ensures 'T' !in DateText(t.date)
    ensures ParseDate(IsoFormat(t)[..10]) == Some(t.date)
    ensures ParseTime(IsoFormat(t)[11..16]) == Some(t.minute)
  {
    var d := DateText(t.date);
    assert forall i :: 0 <= i < 10 ==> d[i] == '-' || IsDigit(d[i]) by {
      assert d == Pad4(t.date.year) + "-" + Pad2(t.date.month) + "-" + Pad2(t.date.day);
    }
    ParseDateText(t.date);
    ParseTimeText(t.minute);
  }

  /** Two digit strings of one length with one value are equal. */
  lemma {:induction false} DigitsDetermine(a: string, b: string)
    requires AllDigits(a) && AllDigits(b) && |a| == |b| && DigitsValue(a) == DigitsValue(b)
    ensures a == b
  {
    if a != [] {
      var n := |a| - 1;
      assert DigitValue(a[n]) == DigitsValue(a) % 10 == DigitValue(b[n]);
      DigitsDetermine(a[..n], b[..n]);
      assert a == a[..n] + [a[n]] && b == b[..n] + [b[n]];
    }
  }
}
