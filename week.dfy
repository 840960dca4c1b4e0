/**
  The two week calendars of the bot. The layered revision shows a rolling window of seven
  days starting today; the monolith and the split revision show the Monday-to-Sunday week
  that contains today. "Today" is a parameter: the clock is not part of the model.
*/
module WeekCalendar {
  import opened Calendar

  /** The seven days starting at `start` stay within Python's date range. */
  predicate WindowFits(start: Date) {
    Ordinal(start) + 6 <= MaxOrdinal
  }

  /** Each date is the day after the one before it. */
  predicate Consecutive(week: seq<Date>) {
    forall i :: 0 <= i < |week| - 1 ==> Ordinal(week[i]) < MaxOrdinal && week[i + 1] == NextDay(week[i])
  }

  /** `week_dates` of service/schedule_service.py: today and the six days after it. */
  function RollingWeek(today: Date): (week: seq<Date>)
    requires WindowFits(today)
    ensures |week| == 7 && week[0] == today && Consecutive(week)
  {
    seq(7, i requires 0 <= i < 7 => AddDays(today, i))
  }

  /** The Monday of the week that contains `today`: `today - timedelta(days=today.weekday())`. */
  function MondayOf(today: Date): (monday: Date)
    ensures Weekday(monday) == 0
    ensures Ordinal(monday) == Ordinal(today) - Weekday(today)
  {
    OrdinalRange(today);
    BackToMonday(Ordinal(today));
    SubDays(today, Weekday(today))
  }

  lemma BackToMonday(o: int)
    requires o >= 1
    ensures o - (o + 6) % 7 >= 1
    ensures (o - (o + 6) % 7 + 6) % 7 == 0
  {
  }

  lemma WeekdayShift(o: int, i: nat)
    ensures (o + i + 6) % 7 == ((o + 6) % 7 + i) % 7
  {
  }

  /** `week_dates` of utils/datetime_utils.py and bot.py: Monday to Sunday of this week. */
  function MondayWeek(today: Date): (week: seq<Date>)
    requires WindowFits(MondayOf(today))
    ensures |week| == 7 && Weekday(week[0]) == 0 && Consecutive(week)
    ensures week[Weekday(today)] == today
  {
    var monday := MondayOf(today);
    var week := seq(7, i requires 0 <= i < 7 => AddDays(monday, i));
    OrdinalInjective(week[Weekday(today)], today);
    week
  }

  /** Along consecutive dates the day number goes up by one per position. */
  lemma {:induction false} ConsecutiveOrdinals(week: seq<Date>, i: nat)
    requires Consecutive(week) && i < |week|
    ensures Ordinal(week[i]) == Ordinal(week[0]) + i
  {
    if i > 0 {
      ConsecutiveOrdinals(week, i - 1);
    }
  }

  /** Consecutive dates are pairwise distinct and strictly increasing, in Python's date order. */
  lemma ConsecutiveIncreasing(week: seq<Date>, i: nat, j: nat)
    requires Consecutive(week) && i < j < |week|
    ensures Before(week[i], week[j]) && week[i] != week[j]
  {
    ConsecutiveOrdinals(week, i);
    ConsecutiveOrdinals(week, j);
    BeforeIffOrdinalLess(week[i], week[j]);
  }

  /** The weekday advances by one per position, wrapping after Sunday. */
  lemma ConsecutiveWeekdays(week: seq<Date>, i: nat)
    requires Consecutive(week) && i < |week|
    ensures Weekday(week[i]) == (Weekday(week[0]) + i) % 7
  {
    ConsecutiveOrdinals(week, i);
    WeekdayShift(Ordinal(week[0]), i);
  }

  /**
    The rolling window starts on today's weekday, not on Monday, and holds every weekday
    exactly once: each occurs at some position and no two positions share one.
  */
  lemma RollingWeekCoversOneOfEachWeekday(today: Date, w: int)
    requires WindowFits(today) && 0 <= w < 7
    ensures Weekday(RollingWeek(today)[0]) == Weekday(today)
    ensures exists i :: 0 <= i < 7 && Weekday(RollingWeek(today)[i]) == w
    ensures forall i, j :: 0 <= i < j < 7 ==> Weekday(RollingWeek(today)[i]) != Weekday(RollingWeek(today)[j])
  {
    var week := RollingWeek(today);
    var i := ShiftTo(Weekday(week[0]), w);
    WeekdayAt(week, i, w);
    forall i, j | 0 <= i < j < 7
      ensures Weekday(week[i]) != Weekday(week[j])
    {
      WeekdaysDiffer(week, i, j);
    }
  }

  /** Fewer than seven days apart, two consecutive dates fall on different weekdays. */
  lemma WeekdaysDiffer(week: seq<Date>, i: nat, j: nat)
    requires Consecutive(week) && i < j < |week| && j - i < 7
    ensures Weekday(week[i]) != Weekday(week[j])
  {
    ConsecutiveWeekdays(week, i);
    ConsecutiveWeekdays(week, j);
    ShiftedRemaindersDiffer(Weekday(week[0]), i, j);
  }

  lemma ShiftedRemaindersDiffer(w: int, i: nat, j: nat)
    requires 0 <= w < 7 && i < j && j - i < 7
    ensures (w + i) % 7 != (w + j) % 7
  {
  }

  lemma WeekdayAt(week: seq<Date>, i: nat, w: int)
    requires Consecutive(week) && i < |week| && (Weekday(week[0]) + i) % 7 == w
    ensures Weekday(week[i]) == w
  {
    ConsecutiveWeekdays(week, i);
  }

  /** How many days after weekday `from` the next weekday `to` comes. */
  function ShiftTo(from: int, to: int): (i: int)
    requires 0 <= from < 7 && 0 <= to < 7
    ensures 0 <= i < 7 && (from + i) % 7 == to
  {
    if to >= from then to - from else to - from + 7
  }
}
