/**
  The texts the bot shows: date headers (`ru_date_string`), slot labels (`get_slot_label`
  and the `SLOT_RU[...]` lookups of the older revisions), button labels and the
  notifications sent to the administrators.
*/
module Render {
  import opened Wrappers
  import opened Calendar
  import opened WeekCalendar
  import opened Defaults
  import opened Numerals
  import IsoDate

  /** `SLOT_RU.get(slot, slot)`: the Russian name of a slot, the slot itself when it has none. */
  function SlotName(slot: string): string {
    if slot in SlotRu then SlotRu[slot] else slot
  }

  /** `get_slot_label`: the slot's name followed by the time in brackets. */
  function SlotLabel(slot: string, time: string): (text: string)
    ensures |text| == |SlotName(slot)| + |time| + 3
    ensures text[..|SlotName(slot)|] == SlotName(slot)
    ensures text[|text| - |time| - 1..] == time + ")"
  {
    SlotName(slot) + " (" + time + ")"
  }

  /**
    `f"{SLOT_RU[slot]} ({time})"` of the monolith and the split revision: the lookup raises
    `KeyError` on a slot with no Russian name, which is `None` here.
  */
  function StrictSlotLabel(slot: string, time: string): (text: Option<string>)
    ensures text.Some? <==> slot in SlotRu
    ensures text.Some? ==> text.value == SlotLabel(slot, time)
  {
    if slot in SlotRu then Some(SlotRu[slot] + " (" + time + ")") else None
  }

  /** The two slots of a day get different labels whatever their times. */
  lemma SlotLabelsDistinguishSlots(t1: string, t2: string)
    ensures SlotLabel(Morning, t1) != SlotLabel(Evening, t2)
  {
    var a := SlotLabel(Morning, t1);
    var b := SlotLabel(Evening, t2);
    assert a[0] == 'У';
    assert b[0] == 'В';
  }

  /** `ru_date_string(date)`: "weekday, day month" with the day not zero-padded. */
  function RuDateString(rev: Revision, d: Date): string {
    WeekdayName(rev, Weekday(d)) + ", " + DayAndMonth(d)
  }

  function DayAndMonth(d: Date): string {
    NatString(d.day) + " " + MonthName(d.month)
  }

  /**
    `ru_date_string` given a string: it is parsed with `datetime.fromisoformat`, and a string
    that is not a date raises `ValueError`, which is `None` here.
  */
  function RuDateOfIso(rev: Revision, s: string): (r: Option<string>)
    ensures r.Some? <==> IsoDate.ParseIso(s).Some?
  {
    match IsoDate.ParseIso(s)
    case Some(d) => Some(RuDateString(rev, d))
    case None => None
  }

  /** Both ways of calling `ru_date_string` agree: a date and its ISO string give one header. */
  lemma RuDateOfIsoAgrees(rev: Revision, d: Date)
    ensures RuDateOfIso(rev, IsoDate.FormatIso(d)) == Some(RuDateString(rev, d))
  {
    IsoDate.ParseFormat(d);
  }

  /** Different weekdays have different names in both revisions. */
  lemma WeekdayNamesDistinct(rev: Revision, a: int, b: int)
    requires 0 <= a < 7 && 0 <= b < 7 && a != b
    ensures WeekdayName(rev, a) != WeekdayName(rev, b)
    ensures ',' !in WeekdayName(rev, a) && ',' !in WeekdayName(rev, b)
  {
    WeekdayNameShape(rev, a);
    WeekdayNameShape(rev, b);
  }

  /**
    The length and first letter of each weekday's name, the same in both revisions; no two
    weekdays share both.
  */
  function NameShape(w: int): (int, char) {
    if w == 0 then (11, 'П') else if w == 1 then (7, 'В') else if w == 2 then (5, 'С')
    else if w == 3 then (7, 'Ч') else if w == 4 then (7, 'П') else if w == 5 then (7, 'С') else (11, 'В')
  }

  lemma WeekdayNameShape(rev: Revision, w: int)
    requires 0 <= w < 7
    ensures var n := WeekdayName(rev, w); |n| >= 1 && NameShape(w) == (|n|, n[0]) && ',' !in n
  {
    assert WeekdayName(rev, w) == WeekdayTable(rev)[w];
    TableNameShape(rev, w);
  }

  lemma TableNameShape(rev: Revision, w: int)
    requires 0 <= w < 7
    ensures var n := WeekdayTable(rev)[w]; |n| >= 1 && NameShape(w) == (|n|, n[0]) && ',' !in n
  {
    if w == 0 {} else if w == 1 {} else if w == 2 {} else if w == 3 {} else if w == 4 {} else if w == 5 {} else {}
  }

  /** Two texts that begin with different comma-free names followed by a comma differ. */
  lemma {:induction false} CommaSeparatedDiffer(n1: string, n2: string, x: string, y: string)
    requires n1 != n2 && ',' !in n1 && ',' !in n2
    ensures n1 + ", " + x != n2 + ", " + y
  {
    var l := n1 + ", " + x;
    var r := n2 + ", " + y;
    if |n1| == |n2| {
      assert l[..|n1|] == n1 && r[..|n2|] == n2;
    } else if |n1| < |n2| {
      assert n2[|n1|] in n2;
      assert l[|n1|] != r[|n1|];
    } else {
      assert n1[|n2|] in n1;
      assert l[|n2|] != r[|n2|];
    }
  }

  /** Two positions less than seven apart fall on different weekdays. */
  lemma WeekdaysApart(w: int, i: nat, j: nat)
    requires 0 <= w < 7 && i < 7 && j < 7 && i != j
    ensures (w + i) % 7 != (w + j) % 7
  {
  }

  /** The seven days of a week get seven different headers, since their weekdays differ. */
  lemma RuDateStringsDistinctInWeek(rev: Revision, week: seq<Date>, i: nat, j: nat)
    requires Consecutive(week) && |week| <= 7 && i < |week| && j < |week| && i != j
    ensures RuDateString(rev, week[i]) != RuDateString(rev, week[j])
  {
    ConsecutiveWeekdays(week, i);
    ConsecutiveWeekdays(week, j);
    WeekdaysApart(Weekday(week[0]), i, j);
    var a := Weekday(week[i]);
    var b := Weekday(week[j]);
    WeekdayNamesDistinct(rev, a, b);
    CommaSeparatedDiffer(WeekdayName(rev, a), WeekdayName(rev, b), DayAndMonth(week[i]), DayAndMonth(week[j]));
  }

  /** `f"{ru_date_string(event.date)}, {event.time}"`: when an event takes place. */
  function EventWhen(date: Date, time: string): string {
    RuDateString(Layered, date) + ", " + time
  }

  /** `p.role.name if p.role else "Без роли"`. */
  function RoleText(name: Option<string>): string {
    if name.Some? then name.value else "Без роли"
  }

  /** `f"@{username}"`: a missing username is printed as `None`. */
  function Mention(username: Option<string>): string {
    "@" + (if username.Some? then username.value else "None")
  }

  /** The notification sent to the administrators when someone signs up. */
  function SignupNotice(username: Option<string>, when: string, role: string): string {
    "🟢 " + Mention(username) + " записался на событие:\n" + when + "\nРоль: " + role
  }

  /** The notification sent to the administrators when a participation is cancelled. */
  function CancelNotice(username: Option<string>, when: string, role: string): string {
    "🔴 " + Mention(username) + " отменил участие в событии:\n" + when + "\nРоль: " + role
  }

  /** The two notifications never coincide: they start with different marks. */
  lemma NoticesDiffer(u1: Option<string>, w1: string, r1: string, u2: Option<string>, w2: string, r2: string)
    ensures SignupNotice(u1, w1, r1) != CancelNotice(u2, w2, r2)
  {
    assert SignupNotice(u1, w1, r1)[0] == '🟢';
    assert CancelNotice(u2, w2, r2)[0] == '🔴';
  }

  /** `str.capitalize` on the ASCII slot names: the first letter upper-cased, the rest lower-cased. */
  function Capitalize(s: string): (r: string)
    ensures |r| == |s|
    ensures forall i :: 0 < i < |s| ==> r[i] == Lower(s[i])
    ensures |s| > 0 ==> r[0] == Upper(s[0])
  {
    if |s| == 0 then [] else [Upper(s[0])] + seq(|s| - 1, i requires 0 <= i < |s| - 1 => Lower(s[i + 1]))
  }

  function Upper(c: char): char {
    if 'a' <= c <= 'z' then (c as int - 32) as char else c
  }

  function Lower(c: char): char {
    if 'A' <= c <= 'Z' then (c as int + 32) as char else c
  }
}
