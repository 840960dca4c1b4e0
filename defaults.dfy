/**
  The constant tables the bot creates events from and renders dates with. The layered
  revision (service/schedule_service.py, utils/formatting.py) and the older two (bot.py,
  config/settings.py) differ in Sunday's name and in the Thursday and Friday evening times.
*/
module Defaults {
  import opened Calendar

  /** Which copy of the tables a caller uses. */
  datatype Revision = Layered | Legacy

  const Morning: string := "morning"
  const Evening: string := "evening"

  /** The slots of a day, in the order every loop visits them. */
  const Slots: seq<string> := [Morning, Evening]

  const WeekdayRu: map<int, string> := map[
    0 := "Понедельник", 1 := "Вторник", 2 := "Среда", 3 := "Четверг",
    4 := "Пятница", 5 := "Суббота", 6 := "Воскресенье"]

  const LegacyWeekdayRu: map<int, string> := map[
    0 := "Понедельник", 1 := "Вторник", 2 := "Среда", 3 := "Четверг",
    4 := "Пятница", 5 := "Суббота", 6 := "Воскресение"]

  const MonthRu: map<int, string> := map[
    1 := "янв", 2 := "фев", 3 := "мар", 4 := "апр", 5 := "мая", 6 := "июн",
    7 := "июл", 8 := "авг", 9 := "сен", 10 := "окт", 11 := "ноя", 12 := "дек"]

  const SlotRu: map<string, string> := map[Morning := "Утро", Evening := "Вечер"]

  const DefaultEventTimes: map<string, map<string, string>> := map[
    "Понедельник" := map[Morning := "08:00", Evening := "19:30"],
    "Вторник" := map[Morning := "08:00", Evening := "19:30"],
    "Среда" := map[Morning := "08:00", Evening := "20:30"],
    "Четверг" := map[Morning := "08:00", Evening := "19:30"],
    "Пятница" := map[Morning := "08:00", Evening := "19:00"],
    "Суббота" := map[Morning := "10:00", Evening := "18:00"],
    "Воскресенье" := map[Morning := "10:00", Evening := "18:00"]]

  const LegacyEventTimes: map<string, map<string, string>> := map[
    "Понедельник" := map[Morning := "08:00", Evening := "19:30"],
    "Вторник" := map[Morning := "08:00", Evening := "19:30"],
    "Среда" := map[Morning := "08:00", Evening := "20:30"],
    "Четверг" := map[Morning := "08:00", Evening := "19:00"],
    "Пятница" := map[Morning := "08:00", Evening := "17:30"],
    "Суббота" := map[Morning := "10:00", Evening := "18:00"],
    "Воскресение" := map[Morning := "10:00", Evening := "18:00"]]

  const DefaultEventNames: map<string, string> := map[Morning := "Утреннее служение", Evening := "Вечернее служение"]

  /** The roles every new event gets, in this order. */
  const DefaultRoles: seq<string> := ["Ведущий молитвы", "Хор", "Ритм"]

  function WeekdayTable(rev: Revision): map<int, string> {
    if rev == Layered then WeekdayRu else LegacyWeekdayRu
  }

  function TimesTable(rev: Revision): map<string, map<string, string>> {
    if rev == Layered then DefaultEventTimes else LegacyEventTimes
  }

  /** A clock time written `HH:MM`. */
  predicate IsClockTime(t: string) {
    |t| == 5 && t[2] == ':' && '0' <= t[0] <= '2' && '0' <= t[1] <= '9' && '0' <= t[3] <= '5' && '0' <= t[4] <= '9'
  }

  /**
    `WEEKDAY_RU[w]`: the lookup is total on 0..6, and every name it gives is a key of the
    times table of the same revision with both slots present.
  */
  function WeekdayName(rev: Revision, w: int): (name: string)
    requires 0 <= w < 7
    ensures name in TimesTable(rev) && Morning in TimesTable(rev)[name] && Evening in TimesTable(rev)[name]
    ensures |name| > 0 && name[0] != 'Н'
  {
    WeekdayNamesAreTimeKeys(rev, w);
    WeekdayTable(rev)[w]
  }

  lemma WeekdayNamesAreTimeKeys(rev: Revision, w: int)
    requires 0 <= w < 7
    ensures var name := WeekdayTable(rev)[w]; name in TimesTable(rev) && Morning in TimesTable(rev)[name] && Evening in TimesTable(rev)[name]
    ensures var name := WeekdayTable(rev)[w]; |name| > 0 && name[0] != 'Н'
  {
    if w == 0 {} else if w == 1 {} else if w == 2 {} else if w == 3 {} else if w == 4 {} else if w == 5 {} else {}
  }

  /** `DEFAULT_EVENT_TIMES[WEEKDAY_RU[d.weekday()]][slot]`: always an `HH:MM` time. */
  function DefaultTime(rev: Revision, d: Date, slot: string): (t: string)
    requires slot in Slots
    ensures IsClockTime(t)
  {
    var w := Weekday(d);
    DefaultTimesAreClockTimes(rev, w, slot);
    TimesTable(rev)[WeekdayName(rev, w)][slot]
  }

  lemma DefaultTimesAreClockTimes(rev: Revision, w: int, slot: string)
    requires 0 <= w < 7 && slot in Slots
    ensures IsClockTime(TimesTable(rev)[WeekdayName(rev, w)][slot])
  {
    if rev == Layered {
      LayeredTimesAreClockTimes(w);
    } else {
      LegacyTimesAreClockTimes(w);
    }
  }

  lemma LayeredTimesAreClockTimes(w: int)
    requires 0 <= w < 7
    ensures WeekdayRu[w] in DefaultEventTimes
    ensures var times := DefaultEventTimes[WeekdayRu[w]];
      Morning in times && Evening in times && IsClockTime(times[Morning]) && IsClockTime(times[Evening])
  {
    if w == 0 { MondayTimes(); } else if w == 1 { TuesdayTimes(); } else if w == 2 { WednesdayTimes(); }
    else if w == 3 { ThursdayTimes(); } else if w == 4 { FridayTimes(); } else if w == 5 { SaturdayTimes(); }
    else { SundayTimes(); }
  }

  lemma LegacyTimesAreClockTimes(w: int)
    requires 0 <= w < 7
    ensures LegacyWeekdayRu[w] in LegacyEventTimes
    ensures var times := LegacyEventTimes[LegacyWeekdayRu[w]];
      Morning in times && Evening in times && IsClockTime(times[Morning]) && IsClockTime(times[Evening])
  {
    if w == 0 { MondayTimes(); } else if w == 1 { TuesdayTimes(); } else if w == 2 { WednesdayTimes(); }
    else if w == 3 { ThursdayTimes(); } else if w == 4 { FridayTimes(); } else if w == 5 { SaturdayTimes(); }
    else { SundayTimes(); }
  }

  /** Both slots of a day of a times table hold `HH:MM` times. */
  predicate ClockTimesIn(table: map<string, map<string, string>>, name: string) {
    name in table && Morning in table[name] && Evening in table[name]
    && IsClockTime(table[name][Morning]) && IsClockTime(table[name][Evening])
  }

  lemma MondayTimes()
    ensures WeekdayRu[0] == LegacyWeekdayRu[0] == "Понедельник"
    ensures ClockTimesIn(DefaultEventTimes, "Понедельник") && ClockTimesIn(LegacyEventTimes, "Понедельник")
    ensures DefaultEventTimes["Понедельник"] == LegacyEventTimes["Понедельник"]
  {
  }

  lemma TuesdayTimes()
    ensures WeekdayRu[1] == LegacyWeekdayRu[1] == "Вторник"
    ensures ClockTimesIn(DefaultEventTimes, "Вторник") && ClockTimesIn(LegacyEventTimes, "Вторник")
    ensures DefaultEventTimes["Вторник"] == LegacyEventTimes["Вторник"]
  {
  }

  lemma WednesdayTimes()
    ensures WeekdayRu[2] == LegacyWeekdayRu[2] == "Среда"
    ensures ClockTimesIn(DefaultEventTimes, "Среда") && ClockTimesIn(LegacyEventTimes, "Среда")
    ensures DefaultEventTimes["Среда"] == LegacyEventTimes["Среда"]
  {
  }

  lemma ThursdayTimes()
    ensures WeekdayRu[3] == LegacyWeekdayRu[3] == "Четверг"
    ensures ClockTimesIn(DefaultEventTimes, "Четверг") && ClockTimesIn(LegacyEventTimes, "Четверг")
    ensures DefaultEventTimes["Четверг"][Morning] == LegacyEventTimes["Четверг"][Morning]
    ensures DefaultEventTimes["Четверг"][Evening] != LegacyEventTimes["Четверг"][Evening]
  {
  }

  lemma FridayTimes()
    ensures WeekdayRu[4] == LegacyWeekdayRu[4] == "Пятница"
    ensures ClockTimesIn(DefaultEventTimes, "Пятница") && ClockTimesIn(LegacyEventTimes, "Пятница")
    ensures DefaultEventTimes["Пятница"][Morning] == LegacyEventTimes["Пятница"][Morning]
    ensures DefaultEventTimes["Пятница"][Evening] != LegacyEventTimes["Пятница"][Evening]
  {
  }

  lemma SaturdayTimes()
    ensures WeekdayRu[5] == LegacyWeekdayRu[5] == "Суббота"
    ensures ClockTimesIn(DefaultEventTimes, "Суббота") && ClockTimesIn(LegacyEventTimes, "Суббота")
    ensures DefaultEventTimes["Суббота"] == LegacyEventTimes["Суббота"]
  {
  }

  lemma SundayTimes()
    ensures WeekdayRu[6] == "Воскресенье" && LegacyWeekdayRu[6] == "Воскресение"
    ensures ClockTimesIn(DefaultEventTimes, "Воскресенье") && ClockTimesIn(LegacyEventTimes, "Воскресение")
    ensures DefaultEventTimes["Воскресенье"] == LegacyEventTimes["Воскресение"]
  {
  }

  /** `DEFAULT_EVENT_NAMES[slot]`: defined for both slots, and different for the two. */
  function DefaultName(slot: string): (name: string)
    requires slot in Slots
    ensures name == DefaultEventNames[slot] && (name == DefaultEventNames[Morning] <==> slot == Morning)
  {
    DefaultEventNames[slot]
  }

  /** `MONTH_RU[m]`: a three-letter abbreviation for each of the twelve months. */
  function MonthName(m: int): (name: string)
    requires 1 <= m <= 12
    ensures |name| == 3
  {
    MonthRu[m]
  }

  /** The two copies of the time table agree except on Thursday and Friday evening. */
  lemma RevisionsAgreeExceptThursdayFridayEvening(d: Date, slot: string)
    requires slot in Slots
    ensures DefaultTime(Layered, d, slot) != DefaultTime(Legacy, d, slot) <==> slot == Evening && (Weekday(d) == 3 || Weekday(d) == 4)
  {
    TimesAgree(Weekday(d), slot);
  }

  /** The two times tables, read through their weekday tables, differ only on Thursday and Friday evening. */
  lemma TimesAgree(w: int, slot: string)
    requires 0 <= w < 7 && slot in Slots
    ensures WeekdayRu[w] in DefaultEventTimes && slot in DefaultEventTimes[WeekdayRu[w]]
    ensures LegacyWeekdayRu[w] in LegacyEventTimes && slot in LegacyEventTimes[LegacyWeekdayRu[w]]
    ensures DefaultEventTimes[WeekdayRu[w]][slot] != LegacyEventTimes[LegacyWeekdayRu[w]][slot] <==> slot == Evening && (w == 3 || w == 4)
  {
    assert slot == Morning || slot == Evening;
    if w == 0 { MondayTimes(); } else if w == 1 { TuesdayTimes(); } else if w == 2 { WednesdayTimes(); }
    else if w == 3 { ThursdayTimes(); } else if w == 4 { FridayTimes(); } else if w == 5 { SaturdayTimes(); }
    else { SundayTimes(); }
  }

  /** The three default role names are distinct, so each resolves to its own role row. */
  lemma DefaultRolesDistinct()
    ensures forall i, j :: 0 <= i < j < |DefaultRoles| ==> DefaultRoles[i] != DefaultRoles[j]
  {
  }
}
