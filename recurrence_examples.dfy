/**
 * A worked example of the recurrence expansion in backend/main.py: a
 * monthly schedule anchored on the 31st, which dateutil skips in the months
 * that have no 31st.
 */
module RecurrenceExamples {
  import opened Wrappers
  import opened Calendar
  import opened Recurrence

  /** The rule of `MonthEndSkipped`: monthly from 31 January 2024 at 08:00, until 30 April 2024 at 23:59. */
  function MonthEndRule(): Rule {
    Rule(Monthly, DateTime(Date(2024, 1, 31), 480), Some(DateTime(Date(2024, 4, 30), 1439)), 1, None)
  }

  /** The periods of `MonthEndRule`: the 31st of each month from January to May. */
  lemma MonthEndPeriods(r: Rule)
    requires r == MonthEndRule()
    ensures WellFormed(r) && r.start.minute == 480 && r.until.Some? && r.start.date == Date(2024, 1, 31)
    ensures OnGrid(r, Date(2024, 1, 31)) && Next(r, Date(2024, 1, 31)) == Date(2024, 2, 31)
      && Next(r, Date(2024, 2, 31)) == Date(2024, 3, 31)
      && Next(r, Date(2024, 3, 31)) == Date(2024, 4, 31)
      && Next(r, Date(2024, 4, 31)) == Date(2024, 5, 31)
  {
  }

  /** Which of those dates exist, and which are within UNTIL. */
  lemma MonthEndDates(r: Rule)
    requires r == MonthEndRule()
    ensures ValidDate(Date(2024, 1, 31)) && !ValidDate(Date(2024, 2, 31)) && ValidDate(Date(2024, 3, 31))
      && !ValidDate(Date(2024, 4, 31)) && ValidDate(Date(2024, 5, 31))
    ensures WithinUntil(r, DateTime(Date(2024, 1, 31), 480)) && WithinUntil(r, DateTime(Date(2024, 3, 31), 480))
    ensures r.until.Some? && DateTimeBefore(r.until.value, DateTime(Date(2024, 5, 31), 480))
  {
  }

  /** From March on, the rule yields March 31st only: April has no 31st and May is past UNTIL. */
  lemma MonthEndFromMarch(r: Rule)
    requires r == MonthEndRule()
    ensures WellFormed(r) && OnGrid(r, Date(2024, 3, 31))
    ensures Expand(r, Date(2024, 3, 31), None) == [DateTime(Date(2024, 3, 31), 480)]
  {
    MonthEndPeriods(r);
    MonthEndDates(r);
    var mar, apr, may := Date(2024, 3, 31), Date(2024, 4, 31), Date(2024, 5, 31);
    ExpandCut(r, may, None);
    ExpandSkip(r, apr, None);
    ExpandYield(r, mar, None);
  }

  /** A monthly rule from January 31st skips February and April: its occurrences are January 31st and March 31st. */
  lemma MonthEndSkipped(r: Rule)
    requires r == MonthEndRule()
    ensures WellFormed(r)
    ensures Occurrences(r) == [DateTime(Date(2024, 1, 31), 480), DateTime(Date(2024, 3, 31), 480)]
  {
    MonthEndPeriods(r);
    MonthEndDates(r);
    MonthEndFromMarch(r);
    var jan, feb := Date(2024, 1, 31), Date(2024, 2, 31);
    ExpandSkip(r, feb, None);
    ExpandYield(r, jan, None);
  }
}
