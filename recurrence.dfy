/**
 * The recurrence `generate_schedule` expands with `dateutil.rrule`: the
 * FREQ, INTERVAL, UNTIL and COUNT parts of a recurrence rule as section
 * 3.3.10 of RFC 5545 defines them, without any BYxxx part.
 *
 * The rule walks one period at a time from the start. DAILY and WEEKLY
 * periods are `interval` and `7 * interval` days apart. MONTHLY and YEARLY
 * periods are `interval` and `12 * interval` months apart and keep the
 * start's day of the month; a period whose month lacks that day (Feb 31,
 * Feb 29 outside a leap year) yields nothing and is skipped, never clamped.
 * Each candidate takes the start's time of day. The walk ends at the first
 * candidate after UNTIL (inclusive bound, compared as a full date-time),
 * when COUNT candidates have been produced, or when the period's year
 * passes 9999 (`datetime.MAXYEAR`).
 */
module Recurrence {
  import opened Wrappers
  import opened Calendar

  datatype Freq = Daily | Weekly | Monthly | Yearly

  /** The key under which `FREQUENCY_MAP` lists a frequency. */
  function FrequencyName(f: Freq): string {
    match f
    case Daily => "daily"
    case Weekly => "weekly"
    case Monthly => "monthly"
    case Yearly => "yearly"
  }

  /** `FREQUENCY_MAP` lookup: the frequency a request names, if it names one. */
  function FrequencyOf(name: string): (f: Option<Freq>)
    ensures forall g: Freq :: f == Some(g) <==> name == FrequencyName(g)
  {
    if name == "daily" then Some(Daily)
    else if name == "weekly" then Some(Weekly)
    else if name == "monthly" then Some(Monthly)
    else if name == "yearly" then Some(Yearly)
    else None
  }

  /**
   * The rule built from a request: `dtstart`, `until` (the request's
   * `end_date`), `interval` and `count`.
   */
  datatype Rule = Rule(freq: Freq, start: DateTime, until: Option<DateTime>, interval: int, count: Option<int>)

  /** Python date-times are valid and within years 1 to 9999; dateutil only advances with a positive interval. */
  predicate WellFormed(r: Rule) {
    ValidDateTime(r.start) && 1 <= r.start.date.year <= MaxYear
    && r.interval >= 1
    && (r.until.Some? ==> ValidDateTime(r.until.value))
  }

  predicate DayBased(f: Freq) {
    f == Daily || f == Weekly
  }

  /** How far apart two periods are: in days for DAILY and WEEKLY, in months for MONTHLY and YEARLY. */
  function Period(r: Rule): (n: int)
    requires r.interval >= 1
    ensures n >= r.interval
  {
    match r.freq
    case Daily => r.interval
    case Weekly => 7 * r.interval
    case Monthly => r.interval
    case Yearly => 12 * r.interval
  }

  /** Months since year 0, so that consecutive months have consecutive numbers. */
  function MonthIndex(d: Date): int {
    12 * d.year + d.month - 1
  }

  /** Where a date sits on the rule's scale: its day number, or its month number. */
  function Key(f: Freq, d: Date): int
    requires 1 <= d.month <= 12
  {
    if DayBased(f) then Ordinal(d) else MonthIndex(d)
  }

  /**
   * `d` is the date of one of the rule's periods, on or after the start: a
   * whole number of periods after it. A monthly or yearly period keeps the
   * start's day of the month whether or not that month has it.
   */
  predicate OnGrid(r: Rule, d: Date)
    requires WellFormed(r)
  {
    1 <= d.month <= 12
    && (DayBased(r.freq) ==> ValidDate(d))
    && (!DayBased(r.freq) ==> d.day == r.start.date.day)
    && Steps(Key(r.freq, d) - Key(r.freq, r.start.date), Period(r))
  }

  /** The date of the next period. */
  function Next(r: Rule, c: Date): (n: Date)
    requires WellFormed(r) && OnGrid(r, c)
    ensures OnGrid(r, n)
    ensures Key(r.freq, n) == Key(r.freq, c) + Period(r)
  {
    if DayBased(r.freq) then AddDays(c, Period(r))
    else
      var m := MonthIndex(c) + Period(r);
      Date(m / 12, m % 12 + 1, c.day)
  }

  /** What is left of the scale before year 10000; it shrinks with every period. */
  function Horizon(r: Rule, c: Date): int
    requires 1 <= c.month <= 12
  {
    (if DayBased(r.freq) then DaysBeforeYear(MaxYear + 1) else 12 * (MaxYear + 1)) - Key(r.freq, c)
  }

  lemma HorizonBound(r: Rule, c: Date)
    requires WellFormed(r) && OnGrid(r, c) && c.year <= MaxYear
    ensures Horizon(r, c) >= 0
  {
    if DayBased(r.freq) {
      OrdinalWithinYear(c);
      DaysBeforeYearMonotone(c.year + 1, MaxYear + 1);
    }
  }

  /** The candidate is not after UNTIL (`res > until` is where dateutil stops). */
  predicate WithinUntil(r: Rule, t: DateTime) {
    r.until.None? || !DateTimeBefore(r.until.value, t)
  }

  /** A date-time the rule's series contains when COUNT does not cut it short. */
  predicate InSeries(r: Rule, t: DateTime)
    requires WellFormed(r)
  {
    ValidDateTime(t) && OnGrid(r, t.date) && t.minute == r.start.minute
    && t.date.year <= MaxYear && WithinUntil(r, t)
  }

  function CountDown(left: Option<int>): Option<int> {
    if left.Some? then Some(left.value - 1) else None
  }

  /**
   * The occurrences from the period at `c` on, with `left` occurrences still
   * allowed (`None`: no COUNT). Every one is in the series, from `c` on,
   * and there are at most `left` of them.
   */
  function Expand(r: Rule, c: Date, left: Option<int>): (occ: seq<DateTime>)
    requires WellFormed(r) && OnGrid(r, c)
    ensures forall t :: t in occ ==> InSeries(r, t) && Key(r.freq, t.date) >= Key(r.freq, c)
    ensures left.Some? ==> |occ| <= if left.value <= 0 then 0 else left.value
    decreases Horizon(r, c)
  {
    if c.year > MaxYear then []
    else
      HorizonBound(r, c);
      if !ValidDate(c) then Expand(r, Next(r, c), left)
      else
        var t := DateTime(c, r.start.minute);
        if r.until.Some? && DateTimeBefore(r.until.value, t) then []
        else if left.Some? && left.value <= 0 then []
        else [t] + Expand(r, Next(r, c), CountDown(left))
  }

  /** `list(rule)`: every occurrence of the rule, in the order dateutil yields them. */
  function Occurrences(r: Rule): seq<DateTime>
    requires WellFormed(r)
  {
    Expand(r, r.start.date, r.count)
  }

  // ---------------------------------------------------------------------------
  // Properties of the expansion

  /** On the grid, a smaller key is an earlier day, and an equal key is the same date. */
  lemma KeyOrder(r: Rule, a: Date, b: Date)
    requires WellFormed(r) && OnGrid(r, a) && OnGrid(r, b) && ValidDate(a) && ValidDate(b)
    ensures Key(r.freq, a) < Key(r.freq, b) ==> DateBefore(a, b) && Ordinal(a) < Ordinal(b)
    ensures Key(r.freq, a) == Key(r.freq, b) ==> a == b
  {
    OrdinalOrder(a, b);
  }

  lemma ExpandFirst(r: Rule, c: Date, left: Option<int>)
    requires WellFormed(r) && OnGrid(r, c) && ValidDate(c)
    ensures var occ := Expand(r, c, left); occ != [] ==> occ[0] == DateTime(c, r.start.minute)
  {
  }

  /** Each date-time comes before every later one, by Python's comparison. */
  predicate Increasing(occ: seq<DateTime>) {
    forall i, j :: 0 <= i < j < |occ| ==> DateTimeBefore(occ[i], occ[j])
  }

  /** The expansion is in strictly increasing date-time order. */
  lemma {:induction false} ExpandIncreasing(r: Rule, c: Date, left: Option<int>)
    requires WellFormed(r) && OnGrid(r, c)
    ensures Increasing(Expand(r, c, left))
    decreases Horizon(r, c)
  {
    if c.year <= MaxYear {
      HorizonBound(r, c);
      var n := Next(r, c);
      if !ValidDate(c) {
        assert Expand(r, c, left) == Expand(r, n, left);
        ExpandIncreasing(r, n, left);
      } else {
        var t := DateTime(c, r.start.minute);
        if !(r.until.Some? && DateTimeBefore(r.until.value, t)) && !(left.Some? && left.value <= 0) {
          var rest := Expand(r, n, CountDown(left));
          assert Expand(r, c, left) == [t] + rest;
          ExpandIncreasing(r, n, CountDown(left));
          HeadBefore(r, c, rest);
          ConsIncreasing(t, rest);
        }
      }
    }
  }

  /** The date-time at period `c` comes before anything from later periods. */
  lemma HeadBefore(r: Rule, c: Date, rest: seq<DateTime>)
    requires WellFormed(r) && OnGrid(r, c) && ValidDate(c)
    requires forall u :: u in rest ==> InSeries(r, u) && Key(r.freq, u.date) > Key(r.freq, c)
    ensures forall u :: u in rest ==> DateTimeBefore(DateTime(c, r.start.minute), u)
  {
    forall u | u in rest
      ensures DateTimeBefore(DateTime(c, r.start.minute), u)
    {
      KeyOrder(r, c, u.date);
    }
  }

  lemma ConsIncreasing(t: DateTime, rest: seq<DateTime>)
    requires forall u :: u in rest ==> DateTimeBefore(t, u)
    requires Increasing(rest)
    ensures Increasing([t] + rest)
  {
    var occ := [t] + rest;
    forall i, j | 0 <= i < j < |occ|
      ensures DateTimeBefore(occ[i], occ[j])
    {
      if i > 0 {
        assert occ[i] == rest[i - 1] && occ[j] == rest[j - 1];
      } else {
        assert occ[j] in rest;
      }
    }
  }

  /**
   * A date-time of the series that lies beyond the period at `c` is not
   * before the next period, and UNTIL does not cut the series at `c`.
   */
  lemma BeyondPeriod(r: Rule, c: Date, t: DateTime)
    requires WellFormed(r) && OnGrid(r, c) && c.year <= MaxYear
    requires InSeries(r, t) && Key(r.freq, t.date) >= Key(r.freq, c) && t.date != c
    ensures Key(r.freq, t.date) >= Key(r.freq, Next(r, c))
    ensures ValidDate(c) ==> WithinUntil(r, DateTime(c, r.start.minute))
  {
    var k0 := Key(r.freq, r.start.date);
    if ValidDate(c) {
      KeyOrder(r, c, t.date);
      var u := DateTime(c, r.start.minute);
      if r.until.Some? {
        InstantOrder(u, t);
        InstantOrder(r.until.value, u);
        InstantOrder(r.until.value, t);
      }
    } else {
      assert Key(r.freq, t.date) != Key(r.freq, c);
    }
    GridGap(Key(r.freq, t.date) - k0, Key(r.freq, c) - k0, Period(r));
  }

  /** Without COUNT, every date-time of the series from the period at `c` on is produced. */
  lemma {:induction false} ExpandComplete(r: Rule, c: Date, t: DateTime)
    requires WellFormed(r) && OnGrid(r, c)
    requires InSeries(r, t) && Key(r.freq, t.date) >= Key(r.freq, c)
    ensures t in Expand(r, c, None)
    decreases Horizon(r, c)
  {
    if c.year > MaxYear {
      if DayBased(r.freq) {
        OrdinalOrder(t.date, c);
      }
      assert false;
    } else {
      HorizonBound(r, c);
      if t.date != c {
        BeyondPeriod(r, c, t);
        ExpandComplete(r, Next(r, c), t);
      }
    }
  }

  /** The first `k` elements of `s`, or all of them when there are fewer; none for `k <= 0`. */
  function Take(s: seq<DateTime>, k: int): seq<DateTime> {
    s[..if k <= 0 then 0 else if k < |s| then k else |s|]
  }

  lemma TakeCons(t: DateTime, rest: seq<DateTime>, k: int)
    requires k > 0
    ensures Take([t] + rest, k) == [t] + Take(rest, k - 1)
  {
    var m := if k < |rest| + 1 then k else |rest| + 1;
    assert ([t] + rest)[..m] == [t] + rest[..m - 1];
  }

  /** COUNT only truncates: with a count of `k` the expansion is the first `k` of the count-free one. */
  lemma {:induction false} ExpandCount(r: Rule, c: Date, k: int)
    requires WellFormed(r) && OnGrid(r, c)
    ensures Expand(r, c, Some(k)) == Take(Expand(r, c, None), k)
    decreases Horizon(r, c)
  {
    if c.year <= MaxYear {
      HorizonBound(r, c);
      var n := Next(r, c);
      var t := DateTime(c, r.start.minute);
      if !ValidDate(c) {
        ExpandCount(r, n, k);
      } else if !(r.until.Some? && DateTimeBefore(r.until.value, t)) && k > 0 {
        ExpandCount(r, n, k - 1);
        TakeCons(t, Expand(r, n, None), k);
      }
    }
  }

  /** Consecutive date-times are exactly `gap` minutes apart. */
  predicate Spaced(occ: seq<DateTime>, gap: int)
    requires forall t :: t in occ ==> 1 <= t.date.month <= 12
  {
    forall i :: 0 <= i < |occ| - 1 ==> Instant(occ[i + 1]) == Instant(occ[i]) + gap
  }

  lemma ConsSpaced(t: DateTime, rest: seq<DateTime>, gap: int)
    requires 1 <= t.date.month <= 12 && forall u :: u in rest ==> 1 <= u.date.month <= 12
    requires Spaced(rest, gap) && (rest != [] ==> Instant(rest[0]) == Instant(t) + gap)
    ensures Spaced([t] + rest, gap)
  {
    var occ := [t] + rest;
    forall i | 0 <= i < |occ| - 1
      ensures Instant(occ[i + 1]) == Instant(occ[i]) + gap
    {
      if i > 0 {
        assert occ[i] == rest[i - 1] && occ[i + 1] == rest[i];
      }
    }
  }

  /** DAILY and WEEKLY occurrences are exactly one period apart, starting at `c`. */
  lemma {:induction false} ExpandSpacing(r: Rule, c: Date, left: Option<int>)
    requires WellFormed(r) && OnGrid(r, c) && DayBased(r.freq)
    ensures var occ := Expand(r, c, left);
      (occ != [] ==> occ[0] == DateTime(c, r.start.minute)) && Spaced(occ, Period(r) * MinutesPerDay)
    decreases Horizon(r, c)
  {
    if c.year <= MaxYear {
      HorizonBound(r, c);
      var n := Next(r, c);
      var t := DateTime(c, r.start.minute);
      if (r.until.Some? && DateTimeBefore(r.until.value, t)) || (left.Some? && left.value <= 0) {
        assert Expand(r, c, left) == [];
      } else {
        ExpandSpacing(r, n, CountDown(left));
        var rest := Expand(r, n, CountDown(left));
        assert Expand(r, c, left) == [t] + rest;
        ConsSpaced(t, rest, Period(r) * MinutesPerDay);
      }
    }
  }

  // ---------------------------------------------------------------------------
  // Properties of a rule's occurrences

  /** Occurrences come out in strictly increasing date-time order. */
  lemma OccurrencesIncreasing(r: Rule)
    requires WellFormed(r)
    ensures Increasing(Occurrences(r))
  {
    ExpandIncreasing(r, r.start.date, r.count);
  }

  /**
   * The start itself is the first occurrence, and there is one unless COUNT
   * is zero or less or the start is already after UNTIL.
   */
  lemma OccurrencesStart(r: Rule)
    requires WellFormed(r)
    ensures Occurrences(r) != [] <==> (r.count.None? || r.count.value > 0) && WithinUntil(r, r.start)
    ensures Occurrences(r) != [] ==> Occurrences(r)[0] == r.start
  {
  }

  /** Without COUNT, a date-time is an occurrence exactly when it lies in the series. */
  lemma OccurrencesExactly(r: Rule, t: DateTime)
    requires WellFormed(r) && r.count.None?
    ensures t in Occurrences(r) <==> InSeries(r, t)
  {
    if InSeries(r, t) {
      ExpandComplete(r, r.start.date, t);
    }
  }

  /** The expansion does not read the rule's own COUNT field: `left` carries it. */
  lemma {:induction false} ExpandIgnoresCount(r: Rule, c: Date, left: Option<int>, k: Option<int>)
    requires WellFormed(r) && OnGrid(r, c)
    ensures Expand(r.(count := k), c, left) == Expand(r, c, left)
    decreases Horizon(r, c)
  {
    var r' := r.(count := k);
    assert Period(r') == Period(r);
    if c.year <= MaxYear {
      HorizonBound(r, c);
      var n := Next(r, c);
      assert Next(r', c) == n;
      var t := DateTime(c, r.start.minute);
      if !ValidDate(c) {
        ExpandIgnoresCount(r, n, left, k);
        assert Expand(r', c, left) == Expand(r', n, left);
      } else if (r.until.Some? && DateTimeBefore(r.until.value, t)) || (left.Some? && left.value <= 0) {
        assert Expand(r', c, left) == [];
      } else {
        ExpandIgnoresCount(r, n, CountDown(left), k);
        assert Expand(r', c, left) == [t] + Expand(r', n, CountDown(left));
      }
    }
  }

  /** With COUNT `k`, the occurrences are the first `k` of those without it. */
  lemma OccurrencesCount(r: Rule, k: int)
    requires WellFormed(r) && r.count == Some(k)
    ensures var all := Occurrences(r.(count := None));
      Occurrences(r) == all[..if k <= 0 then 0 else if k < |all| then k else |all|]
  {
    ExpandCount(r, r.start.date, k);
    ExpandIgnoresCount(r, r.start.date, None, None);
  }

  /** DAILY and WEEKLY: consecutive starts are `interval` days, or `interval` weeks, apart. */
  lemma OccurrencesEvenlySpaced(r: Rule)
    requires WellFormed(r) && DayBased(r.freq)
    ensures var occ := Occurrences(r);
      forall i :: 0 <= i < |occ| - 1 ==>
        Instant(occ[i + 1]) - Instant(occ[i]) == (if r.freq == Daily then 1 else 7) * r.interval * MinutesPerDay
  {
    ExpandSpacing(r, r.start.date, r.count);
  }

  /**
   * Every occurrence keeps the start's time of day; MONTHLY and YEARLY ones
   * keep its day of the month (a month without that day is skipped, never
   * clamped), and YEARLY ones its month too.
   */
  lemma OccurrencesKeepAnchor(r: Rule, t: DateTime)
    requires WellFormed(r) && t in Occurrences(r)
    ensures t.minute == r.start.minute
    ensures !DayBased(r.freq) ==> t.date.day == r.start.date.day && ValidDate(t.date)
    ensures r.freq == Yearly ==> t.date.month == r.start.date.month
  {
    if r.freq == Yearly {
      TwelveDivides(MonthIndex(t.date) - MonthIndex(r.start.date), r.interval);
    }
  }

  /** A period whose date does not exist yields nothing and the expansion goes on. */
  lemma ExpandSkip(r: Rule, c: Date, left: Option<int>)
    requires WellFormed(r) && OnGrid(r, c) && c.year <= MaxYear && !ValidDate(c)
    ensures Expand(r, c, left) == Expand(r, Next(r, c), left)
  {
  }

  /** A period past UNTIL ends the expansion. */
  lemma ExpandCut(r: Rule, c: Date, left: Option<int>)
    requires WellFormed(r) && OnGrid(r, c) && c.year <= MaxYear && ValidDate(c)
    requires r.until.Some? && DateTimeBefore(r.until.value, DateTime(c, r.start.minute))
    ensures Expand(r, c, left) == []
  {
  }

  /** A period within UNTIL and COUNT yields its date-time, then the expansion goes on. */
  lemma ExpandYield(r: Rule, c: Date, left: Option<int>)
    requires WellFormed(r) && OnGrid(r, c) && c.year <= MaxYear && ValidDate(c)
    requires WithinUntil(r, DateTime(c, r.start.minute)) && (left.None? || left.value > 0)
    ensures Expand(r, c, left) == [DateTime(c, r.start.minute)] + Expand(r, Next(r, c), CountDown(left))
  {
  }

  // ---------------------------------------------------------------------------
  // Integer facts for the period grid

  /** `x` is a whole number of steps of size `n`, none or more. */
  predicate Steps(x: int, n: int)
    requires n >= 1
    decreases x
  {
    if x <= 0 then x == 0 else Steps(x - n, n)
  }

  lemma MulStep(a: int, n: int)
    requires a >= 0 && n >= 1
    ensures a * n >= 0 && (a + 1) * n == a * n + n
  {
  }

  lemma DivModUnique(x: int, n: int, q: int, r: int)
    requires n >= 1 && 0 <= r < n && x == q * n + r
    ensures x / n == q && x % n == r
  {
    var d := q - x / n;
    assert d * n == x % n - r;
    if d >= 1 {
      MulStep(d - 1, n);
    } else if d <= -1 {
      MulStep(-d - 1, n);
    }
  }

  /** Being a whole number of steps is being a non-negative multiple. */
  lemma {:induction false} StepsMultiple(x: int, n: int)
    requires n >= 1
    ensures Steps(x, n) <==> x >= 0 && x % n == 0
    decreases if x >= 0 then x else 0
  {
    if x > 0 {
      StepsMultiple(x - n, n);
      DivModUnique(x, n, (x - n) / n + 1, (x - n) % n);
      if x < n {
        DivModUnique(x, n, 0, x);
      }
    }
  }

  /** Two distinct points of one grid are at least a step apart. */
  lemma {:induction false} GridGap(a: int, b: int, n: int)
    requires n >= 1 && a > b && Steps(a, n) && Steps(b, n)
    ensures a >= b + n
    decreases b
  {
    if b > 0 {
      GridGap(a - n, b - n, n);
    }
  }

  /** A whole number of steps of `12 * k` is a whole number of years' worth of months. */
  lemma {:induction false} TwelveDivides(x: int, k: int)
    requires k >= 1 && Steps(x, 12 * k)
    ensures x % 12 == 0
    decreases x
  {
    if x > 0 {
      TwelveDivides(x - 12 * k, k);
    }
  }
}
