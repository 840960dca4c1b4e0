/**
  The weekly schedule text. The layered revision renders the event DTOs of the rolling week
  (`build_schedule_text` of utils/formatting.py); the monolith and the split revision render
  the `date -> slot -> event` dictionary that `get_events_for_week` builds.
*/
module Schedule {
  import opened Wrappers
  import opened Calendar
  import opened Defaults
  import opened Db
  import opened Render
  import opened PyStrings
  import opened Markdown
  import opened Store
  import IsoDate

  const NoEventsRolling: string := "Нет событий на ближайшие 7 дней."
  const NoEventsThisWeek: string := "Нет событий на этой неделе."

  /** A participant as the schedule lists them. */
  datatype Attendee = Attendee(username: string, role: Option<string>)

  /** What the schedule shows under a slot: the event's time and its participants. */
  datatype Entry = Entry(time: string, attendees: seq<Attendee>)

  // Lines of text

  /** `f"      - @{username}: {role}"`; the layered revision escapes the username for MarkdownV2. */
  function AttendeeLine(a: Attendee, escape: bool): string {
    "      - @" + (if escape then EscapeMd2(a.username) else a.username) + ": " + RoleText(a.role)
  }

  /**
    The line of one slot: `  - Утро (08:00)`, and when anyone has signed up a colon and one
    line per participant.
  */
  function SlotLine(slot: string, e: Entry, escape: bool): string {
    var head := "  - " + SlotName(slot) + " (" + e.time + ")";
    if |e.attendees| > 0 then
      head + ":\n" + Join("\n", seq(|e.attendees|, i requires 0 <= i < |e.attendees| => AttendeeLine(e.attendees[i], escape)))
    else head
  }

  /** A day contributes its header and its slot lines, or nothing when no slot has an event. */
  function DayBlock(header: string, slotLines: seq<string>): seq<string> {
    if slotLines == [] then [] else [header] + slotLines
  }

  /** `if slot_lines: lines.append(header); lines.extend(slot_lines)`. */
  method AddBlock(lines: seq<string>, header: string, slotLines: seq<string>) returns (lines': seq<string>)
    ensures lines' == lines + DayBlock(header, slotLines)
  {
    lines' := lines;
    if slotLines != [] {
      lines' := lines' + [header] + slotLines;
      AppendAssoc(lines, [header], slotLines);
    }
  }

  /** `"\n".join(lines) if lines else <empty message>`. */
  function JoinOr(lines: seq<string>, empty: string): string {
    if lines == [] then empty else Join("\n", lines)
  }

  /** The blocks one after the other (`lines.extend` per block). */
  function Concat<T>(bs: seq<seq<T>>): seq<T> {
    if bs == [] then [] else Concat(bs[..|bs| - 1]) + bs[|bs| - 1]
  }

  lemma ConcatAppend<T>(bs: seq<seq<T>>, b: seq<T>)
    ensures Concat(bs + [b]) == Concat(bs) + b
  {
    assert (bs + [b])[..|bs|] == bs;
  }

  /** The concatenation of the first `j + 1` blocks is that of the first `j` followed by block `j`. */
  lemma ConcatStep<T>(bs: seq<seq<T>>, j: int)
    requires 0 <= j < |bs|
    ensures Concat(bs[..j + 1]) == Concat(bs[..j]) + bs[j]
  {
    assert bs[..j + 1] == bs[..j] + [bs[j]];
    ConcatAppend(bs[..j], bs[j]);
  }

  lemma {:induction false} ConcatEmptyIff<T>(bs: seq<seq<T>>)
    ensures Concat(bs) == [] <==> forall m :: 0 <= m < |bs| ==> bs[m] == []
  {
    if bs != [] {
      var init := bs[..|bs| - 1];
      ConcatEmptyIff(init);
      assert forall m :: 0 <= m < |init| ==> init[m] == bs[m];
    }
  }

  // The layered revision: DTOs grouped by date

  function DtoEntry(e: EventDto): Entry {
    Entry(e.time, seq(|e.participations|, i requires 0 <= i < |e.participations| =>
      var p := e.participations[i];
      Attendee(p.username, if p.role.Some? then Some(p.role.value.name) else None)))
  }

  /** The date a DTO carries, if its string is one. */
  function DtoDate(e: EventDto): Option<Date> {
    IsoDate.ParseIso(e.date)
  }

  /** Every DTO's date parses and lies in the week; otherwise `build_schedule_text` raises. */
  predicate AllInWeek(dtos: seq<EventDto>, week: seq<Date>) {
    forall i :: 0 <= i < |dtos| ==> DtoDate(dtos[i]).Some? && DtoDate(dtos[i]).value in week
  }

  /** `events_by_date[d]`: the DTOs dated `d`, in their order. */
  function DtosOn(dtos: seq<EventDto>, d: Date): (r: seq<EventDto>)
    ensures forall e :: e in r <==> e in dtos && DtoDate(e) == Some(d)
  {
    if dtos == [] then []
    else
      var last := dtos[|dtos| - 1];
      DtosOn(dtos[..|dtos| - 1], d) + (if DtoDate(last) == Some(d) then [last] else [])
  }

  /** `next((e for e in bucket if e.slot == slot), None)`: the first DTO of the slot. */
  function FirstInSlot(bucket: seq<EventDto>, slot: string): (r: Option<EventDto>)
    ensures r.Some? ==> r.value in bucket && r.value.slot == slot
    ensures r.None? <==> forall i :: 0 <= i < |bucket| ==> bucket[i].slot != slot
  {
    if bucket == [] then None
    else if bucket[0].slot == slot then Some(bucket[0])
    else FirstInSlot(bucket[1..], slot)
  }

  /** The slot lines of one day, for the slots in `slots`. */
  function SlotLines(bucket: seq<EventDto>, slots: seq<string>): seq<string> {
    if slots == [] then []
    else
      var slot := slots[|slots| - 1];
      SlotLines(bucket, slots[..|slots| - 1]) + Shown(bucket, slot)
  }

  /** The line of the slot's first event, or nothing when the slot has none. */
  function Shown(bucket: seq<EventDto>, slot: string): (r: seq<string>)
    ensures r == [] <==> FirstInSlot(bucket, slot).None?
  {
    match FirstInSlot(bucket, slot)
    case Some(e) => [SlotLine(slot, DtoEntry(e), true)]
    case None => []
  }

  lemma SlotLinesOfDay(bucket: seq<EventDto>)
    ensures SlotLines(bucket, Slots) == Shown(bucket, Morning) + Shown(bucket, Evening)
  {
    assert Slots[..1] == [Morning];
    assert Slots[1] == Evening;
    assert SlotLines(bucket, Slots) == SlotLines(bucket, [Morning]) + Shown(bucket, Evening);
    assert [Morning][..0] == [];
    assert SlotLines(bucket, [Morning]) == SlotLines(bucket, []) + Shown(bucket, Morning);
    assert SlotLines(bucket, []) + Shown(bucket, Morning) == Shown(bucket, Morning);
  }

  function DayLines(dtos: seq<EventDto>, d: Date): seq<string> {
    DayBlock(RuDateString(Layered, d), SlotLines(DtosOn(dtos, d), Slots))
  }

  /** One block of lines per date, in the order of the dates. */
  function DayBlocks(dtos: seq<EventDto>, ws: seq<Date>): (r: seq<seq<string>>)
    ensures |r| == |ws|
  {
    seq(|ws|, m requires 0 <= m < |ws| => DayLines(dtos, ws[m]))
  }

  function WeekLines(dtos: seq<EventDto>, ws: seq<Date>): seq<string> {
    Concat(DayBlocks(dtos, ws))
  }

  /**
    `build_schedule_text(event_dtos)` for the dates `week`: `None` when a DTO's date does
    not parse (`ValueError`) or is not one of the week's dates (`KeyError`).
  */
  function ScheduleText(dtos: seq<EventDto>, week: seq<Date>): (r: Option<string>)
    ensures r.Some? <==> AllInWeek(dtos, week)
  {
    if AllInWeek(dtos, week) then Some(JoinOr(WeekLines(dtos, week), NoEventsRolling)) else None
  }

  // The method, loop by loop

  /** `groups` is `events_by_date` after the first `i` DTOs. */
  ghost predicate Grouped(groups: map<Date, seq<EventDto>>, dtos: seq<EventDto>, i: int, week: seq<Date>)
    requires 0 <= i <= |dtos|
  {
    (forall k :: 0 <= k < i ==> DtoDate(dtos[k]).Some? && DtoDate(dtos[k]).value in week) &&
    (forall d :: d in groups <==> d in week) &&
    (forall d :: d in groups ==> groups[d] == DtosOn(dtos[..i], d))
  }

  /** The first loop of `build_schedule_text`: `events_by_date` filled from the DTOs. */
  method GroupByDate(dtos: seq<EventDto>, week: seq<Date>) returns (byDate: Option<map<Date, seq<EventDto>>>)
    ensures byDate.Some? <==> AllInWeek(dtos, week)
    ensures byDate.Some? ==> forall d :: d in byDate.value <==> d in week
    ensures byDate.Some? ==> forall d :: d in byDate.value ==> byDate.value[d] == DtosOn(dtos, d)
  {
    var groups: map<Date, seq<EventDto>> := map d | d in week :: [];
    var i := 0;
    while i < |dtos|
      invariant 0 <= i <= |dtos|
      invariant Grouped(groups, dtos, i, week)
    {
      var e := dtos[i];
      var parsed := DtoDate(e);
      if parsed.None? || parsed.value !in groups {
        return None;
      }
      GroupStep(groups, dtos, i, week, parsed.value);
      groups := groups[parsed.value := groups[parsed.value] + [e]];
      i := i + 1;
    }
    assert dtos[..i] == dtos;
    byDate := Some(groups);
  }

  /** Appending the next DTO to the bucket of its date keeps `Grouped`. */
  lemma GroupStep(groups: map<Date, seq<EventDto>>, dtos: seq<EventDto>, i: int, week: seq<Date>, d: Date)
    requires 0 <= i < |dtos| && Grouped(groups, dtos, i, week)
    requires DtoDate(dtos[i]) == Some(d) && d in groups
    ensures Grouped(groups[d := groups[d] + [dtos[i]]], dtos, i + 1, week)
  {
    var next := groups[d := groups[d] + [dtos[i]]];
    forall x | x in next
      ensures next[x] == DtosOn(dtos[..i + 1], x)
    {
      DtosOnStep(dtos, i, x);
    }
  }

  lemma DtosOnStep(dtos: seq<EventDto>, i: int, d: Date)
    requires 0 <= i < |dtos|
    ensures DtosOn(dtos[..i + 1], d) == DtosOn(dtos[..i], d) + (if DtoDate(dtos[i]) == Some(d) then [dtos[i]] else [])
  {
    assert dtos[..i + 1][..i] == dtos[..i];
  }

  /** The inner loop over the slots of one day. */
  method RenderDay(bucket: seq<EventDto>) returns (dayLines: seq<string>)
    ensures dayLines == SlotLines(bucket, Slots)
  {
    dayLines := [];
    for k := 0 to |Slots|
      invariant dayLines == SlotLines(bucket, Slots[..k])
    {
      var slot := Slots[k];
      var event := FirstInSlot(bucket, slot);
      if event.Some? {
        dayLines := dayLines + [SlotLine(slot, DtoEntry(event.value), true)];
      }
      TakeOneMore(Slots, k);
    }
    assert Slots[..|Slots|] == Slots;
  }

  /** The second loop: one block per date of the week. */
  method RenderWeek(dtos: seq<EventDto>, byDate: map<Date, seq<EventDto>>, week: seq<Date>) returns (lines: seq<string>)
    requires forall d :: d in week ==> d in byDate && byDate[d] == DtosOn(dtos, d)
    ensures lines == WeekLines(dtos, week)
  {
    ghost var blocks := DayBlocks(dtos, week);
    lines := [];
    for j := 0 to |week|
      invariant lines == Concat(blocks[..j])
    {
      var date := week[j];
      var dayLines := RenderDay(byDate[date]);
      var header := RuDateString(Layered, date);
      assert blocks[j] == DayBlock(header, dayLines);
      ConcatStep(blocks, j);
      lines := AddBlock(lines, header, dayLines);
    }
    assert blocks[..|week|] == blocks;
  }

  /** `build_schedule_text(event_dtos)` with `week_dates()` given as `week`. */
  method BuildScheduleText(dtos: seq<EventDto>, week: seq<Date>) returns (text: Option<string>)
    ensures text == ScheduleText(dtos, week)
  {
    var byDate := GroupByDate(dtos, week);
    if byDate.None? {
      return None;
    }
    var lines := RenderWeek(dtos, byDate.value, week);
    text := Some(if lines == [] then NoEventsRolling else Join("\n", lines));
  }

  // Properties of the layered schedule text

  /** The DTOs of the week's events, as `get_week_schedule` returns them, always render. */
  lemma WeekEventsRender(es: seq<EventRow>, rs: seq<RoleRow>, ps: seq<PartRow>, week: seq<Date>)
    ensures ScheduleText(EventsForDates(es, rs, ps, week), week).Some?
  {
    var dtos := EventsForDates(es, rs, ps, week);
    var rows := SelectedEvents(es, week);
    forall i | 0 <= i < |dtos|
      ensures DtoDate(dtos[i]).Some? && DtoDate(dtos[i]).value in week
    {
      assert rows[i] in rows;
    }
  }

  /** A bucket without morning and evening DTOs gives no slot lines, and one with either does. */
  lemma SlotLinesEmptyIff(bucket: seq<EventDto>)
    ensures SlotLines(bucket, Slots) == [] <==> forall i :: 0 <= i < |bucket| ==> bucket[i].slot !in Slots
  {
    SlotLinesOfDay(bucket);
  }

  /** The week's lines are empty exactly when every day's are. */
  lemma WeekLinesEmptyIff(dtos: seq<EventDto>, ws: seq<Date>)
    ensures WeekLines(dtos, ws) == [] <==> forall m :: 0 <= m < |ws| ==> DayLines(dtos, ws[m]) == []
  {
    var bs := DayBlocks(dtos, ws);
    ConcatEmptyIff(bs);
    assert forall m :: 0 <= m < |ws| ==> bs[m] == DayLines(dtos, ws[m]);
  }

  /**
    With every DTO dated in the week, the schedule says "no events" exactly when no DTO is
    in the morning or evening slot.
  */
  lemma NoEventsMessageIff(dtos: seq<EventDto>, week: seq<Date>)
    requires AllInWeek(dtos, week)
    ensures WeekLines(dtos, week) == [] <==> forall i :: 0 <= i < |dtos| ==> dtos[i].slot !in Slots
  {
    WeekLinesEmptyIff(dtos, week);
    if exists i :: 0 <= i < |dtos| && dtos[i].slot in Slots {
      var i :| 0 <= i < |dtos| && dtos[i].slot in Slots;
      var d := DtoDate(dtos[i]).value;
      var m :| 0 <= m < |week| && week[m] == d;
      SlottedDtoShows(dtos, i, d);
    } else {
      forall m | 0 <= m < |week|
        ensures DayLines(dtos, week[m]) == []
      {
        UnslottedDayQuiet(dtos, week[m]);
      }
    }
  }

  /** A day with a morning or evening DTO has lines. */
  lemma SlottedDtoShows(dtos: seq<EventDto>, i: int, d: Date)
    requires 0 <= i < |dtos| && dtos[i].slot in Slots && DtoDate(dtos[i]) == Some(d)
    ensures DayLines(dtos, d) != []
  {
    var bucket := DtosOn(dtos, d);
    assert dtos[i] in bucket;
    var k :| 0 <= k < |bucket| && bucket[k] == dtos[i];
    SlotLinesEmptyIff(bucket);
  }

  /** When no DTO is in the morning or evening slot, no day has lines. */
  lemma UnslottedDayQuiet(dtos: seq<EventDto>, d: Date)
    requires forall i :: 0 <= i < |dtos| ==> dtos[i].slot !in Slots
    ensures DayLines(dtos, d) == []
  {
    var bucket := DtosOn(dtos, d);
    forall k | 0 <= k < |bucket|
      ensures bucket[k].slot !in Slots
    {
      assert bucket[k] in dtos;
    }
    SlotLinesEmptyIff(bucket);
  }

  /** Adding a DTO after one with the same slot does not change the first DTO of any slot. */
  lemma FirstInSlotAppend(bucket: seq<EventDto>, e: EventDto, slot: string)
    requires exists k :: 0 <= k < |bucket| && bucket[k].slot == e.slot
    ensures FirstInSlot(bucket + [e], slot) == FirstInSlot(bucket, slot)
  {
    if bucket[0].slot != slot {
      assert (bucket + [e])[1..] == bucket[1..] + [e];
      if bucket[0].slot != e.slot {
        var k :| 0 <= k < |bucket| && bucket[k].slot == e.slot;
        assert bucket[1..][k - 1].slot == e.slot;
        FirstInSlotAppend(bucket[1..], e, slot);
      } else if FirstInSlot(bucket[1..], slot).Some? {
        FirstInSlotAppendFound(bucket[1..], e, slot);
      } else {
        assert e.slot != slot;
        FirstInSlotAppendMiss(bucket[1..], e, slot);
      }
    }
  }

  lemma FirstInSlotAppendFound(bucket: seq<EventDto>, e: EventDto, slot: string)
    requires FirstInSlot(bucket, slot).Some?
    ensures FirstInSlot(bucket + [e], slot) == FirstInSlot(bucket, slot)
  {
    if bucket[0].slot != slot {
      assert (bucket + [e])[1..] == bucket[1..] + [e];
      FirstInSlotAppendFound(bucket[1..], e, slot);
    }
  }

  lemma FirstInSlotAppendMiss(bucket: seq<EventDto>, e: EventDto, slot: string)
    requires FirstInSlot(bucket, slot).None? && e.slot != slot
    ensures FirstInSlot(bucket + [e], slot).None?
  {
  }

  /** Two buckets with the same first morning and first evening DTO give the same lines. */
  lemma SameFirstsSameLines(b1: seq<EventDto>, b2: seq<EventDto>)
    requires FirstInSlot(b1, Morning) == FirstInSlot(b2, Morning) && FirstInSlot(b1, Evening) == FirstInSlot(b2, Evening)
    ensures SlotLines(b1, Slots) == SlotLines(b2, Slots)
  {
    SlotLinesOfDay(b1);
    SlotLinesOfDay(b2);
  }

  /** Adding `e` changes no day's lines when its slot on its date is already taken. */
  lemma DayLinesAppend(dtos: seq<EventDto>, e: EventDto, d: Date)
    requires DtoDate(e) == Some(d) ==> exists k :: 0 <= k < |dtos| && DtoDate(dtos[k]) == DtoDate(e) && dtos[k].slot == e.slot
    ensures DayLines(dtos + [e], d) == DayLines(dtos, d)
  {
    var b := DtosOn(dtos, d);
    BucketAppend(dtos, e, d);
    if DtoDate(e) == Some(d) {
      var k :| 0 <= k < |dtos| && DtoDate(dtos[k]) == DtoDate(e) && dtos[k].slot == e.slot;
      SlotInBucket(dtos, k, d);
      FirstInSlotAppend(b, e, Morning);
      FirstInSlotAppend(b, e, Evening);
      SameFirstsSameLines(b + [e], b);
    } else {
      assert b + [] == b;
    }
  }

  /** The bucket of `d` grows by `e` exactly when `e` is dated `d`. */
  lemma BucketAppend(dtos: seq<EventDto>, e: EventDto, d: Date)
    ensures DtosOn(dtos + [e], d) == DtosOn(dtos, d) + (if DtoDate(e) == Some(d) then [e] else [])
  {
    var all := dtos + [e];
    assert all[..|all| - 1] == dtos;
  }

  /** The bucket of the date of a DTO holds a DTO of its slot. */
  lemma SlotInBucket(dtos: seq<EventDto>, k: int, d: Date)
    requires 0 <= k < |dtos| && DtoDate(dtos[k]) == Some(d)
    ensures exists j :: 0 <= j < |DtosOn(dtos, d)| && DtosOn(dtos, d)[j].slot == dtos[k].slot
  {
    var b := DtosOn(dtos, d);
    assert dtos[k] in b;
    var j :| 0 <= j < |b| && b[j] == dtos[k];
  }

  /**
    A DTO for a date and slot that an earlier DTO already occupies changes nothing: the
    schedule shows the first event of each slot.
  */
  lemma LaterDuplicateIgnored(dtos: seq<EventDto>, e: EventDto, week: seq<Date>)
    requires DtoDate(e).Some? && DtoDate(e).value in week
    requires exists k :: 0 <= k < |dtos| && DtoDate(dtos[k]) == DtoDate(e) && dtos[k].slot == e.slot
    ensures ScheduleText(dtos + [e], week) == ScheduleText(dtos, week)
  {
    var all := dtos + [e];
    assert all[..|dtos|] == dtos;
    assert AllInWeek(all, week) <==> AllInWeek(dtos, week) by {
      if AllInWeek(dtos, week) {
        forall i | 0 <= i < |all|
          ensures DtoDate(all[i]).Some? && DtoDate(all[i]).value in week
        {
          if i < |dtos| { assert all[i] == dtos[i]; }
        }
      }
      if AllInWeek(all, week) {
        forall i | 0 <= i < |dtos|
          ensures DtoDate(dtos[i]).Some? && DtoDate(dtos[i]).value in week
        {
          assert all[i] == dtos[i];
        }
      }
    }
    forall m | 0 <= m < |week|
      ensures DayLines(all, week[m]) == DayLines(dtos, week[m])
    {
      DayLinesAppend(dtos, e, week[m]);
    }
    assert DayBlocks(all, week) == DayBlocks(dtos, week);
  }

  // The monolith and the split revision: the `date -> slot -> event` dictionary

  /** The dictionary `get_events_for_week` returns. */
  type WeekMap = map<Date, map<string, EventRow>>

  /** The last of `rows` with that date and slot: later rows overwrite earlier ones. */
  function Latest(rows: seq<EventRow>, d: Date, slot: string): (r: Option<EventRow>)
    ensures r.Some? ==> r.value in rows && r.value.date == d && r.value.slot == slot
    ensures r.None? <==> forall i :: 0 <= i < |rows| ==> rows[i].date != d || rows[i].slot != slot
  {
    if rows == [] then None
    else
      var last := rows[|rows| - 1];
      if last.date == d && last.slot == slot then Some(last)
      else Latest(rows[..|rows| - 1], d, slot)
  }

  /** A row of that date and slot with none after it is the one kept. */
  lemma {:induction false} LatestIsLast(rows: seq<EventRow>, i: int)
    requires 0 <= i < |rows|
    requires forall k :: i < k < |rows| ==> rows[k].date != rows[i].date || rows[k].slot != rows[i].slot
    ensures Latest(rows, rows[i].date, rows[i].slot) == Some(rows[i])
  {
    if i < |rows| - 1 {
      var init := rows[..|rows| - 1];
      assert forall k :: i < k < |init| ==> init[k] == rows[k];
      LatestIsLast(init, i);
    }
  }

  /** `schedule[d].get(s)`, absent also when `d` is not a key. */
  function Lookup(m: WeekMap, d: Date, s: string): Option<EventRow> {
    if d in m && s in m[d] then Some(m[d][s]) else None
  }

  lemma LatestStep(rows: seq<EventRow>, i: int, d: Date, s: string)
    requires 0 <= i < |rows|
    ensures Latest(rows[..i + 1], d, s) == if rows[i].date == d && rows[i].slot == s then Some(rows[i]) else Latest(rows[..i], d, s)
  {
    assert rows[..i + 1][..i] == rows[..i];
  }

  /** `get_events_for_week`: the week's events in (date, slot) order, the last one per slot kept. */
  method GetEventsForWeek(es: seq<EventRow>, week: seq<Date>) returns (schedule: WeekMap)
    ensures forall d :: d in schedule <==> d in week
    ensures forall d, s :: d in schedule ==> (s in schedule[d] <==> Latest(SelectedEvents(es, week), d, s).Some?)
    ensures forall d, s :: d in schedule && s in schedule[d] ==> schedule[d][s] == Latest(SelectedEvents(es, week), d, s).value
  {
    var rows := SelectedEvents(es, week);
    schedule := map d | d in week :: map[];
    for i := 0 to |rows|
      invariant forall d :: d in schedule <==> d in week
      invariant forall d, s :: Lookup(schedule, d, s) == Latest(rows[..i], d, s)
    {
      assert rows[i] in rows;
      schedule := PlaceRow(schedule, rows, i);
    }
    assert rows[..|rows|] == rows;
    LookupAll(schedule, rows);
  }

  /** The body of the loop of `get_events_for_week`: `schedule[date][slot] = event`. */
  method PlaceRow(schedule: WeekMap, rows: seq<EventRow>, i: int) returns (next: WeekMap)
    requires 0 <= i < |rows| && rows[i].date in schedule
    requires forall d, s :: Lookup(schedule, d, s) == Latest(rows[..i], d, s)
    ensures forall d :: d in next <==> d in schedule
    ensures forall d, s :: Lookup(next, d, s) == Latest(rows[..i + 1], d, s)
  {
    var event := rows[i];
    next := schedule[event.date := schedule[event.date][event.slot := event]];
    forall d, s
      ensures Lookup(next, d, s) == Latest(rows[..i + 1], d, s)
    {
      LatestStep(rows, i, d, s);
      assert Lookup(schedule, d, s) == Latest(rows[..i], d, s);
    }
  }

  /** A dictionary whose lookups are the latest rows holds exactly those rows. */
  lemma LookupAll(schedule: WeekMap, rows: seq<EventRow>)
    requires forall d, s :: Lookup(schedule, d, s) == Latest(rows, d, s)
    ensures forall d, s :: d in schedule ==> (s in schedule[d] <==> Latest(rows, d, s).Some?)
    ensures forall d, s :: d in schedule && s in schedule[d] ==> schedule[d][s] == Latest(rows, d, s).value
  {
    forall d, s | d in schedule
      ensures s in schedule[d] <==> Latest(rows, d, s).Some?
      ensures s in schedule[d] ==> schedule[d][s] == Latest(rows, d, s).value
    {
      assert Lookup(schedule, d, s) == Latest(rows, d, s);
    }
  }

  function RowEntry(e: LoadedEvent): Entry {
    Entry(e.row.time, seq(|e.parts| , i requires 0 <= i < |e.parts| =>
      var p := e.parts[i];
      Attendee(p.row.username, if p.role.Some? then Some(p.role.value.name) else None)))
  }

  /** The slot lines of one day of the dictionary; the participants are loaded from the tables. */
  function LegacySlotLines(day: map<string, EventRow>, rs: seq<RoleRow>, ps: seq<PartRow>, slots: seq<string>): seq<string> {
    if slots == [] then []
    else
      var slot := slots[|slots| - 1];
      LegacySlotLines(day, rs, ps, slots[..|slots| - 1]) + LegacyShown(day, rs, ps, slot)
  }

  function LegacyShown(day: map<string, EventRow>, rs: seq<RoleRow>, ps: seq<PartRow>, slot: string): (r: seq<string>)
    ensures r == [] <==> slot !in day
  {
    if slot in day then [SlotLine(slot, RowEntry(LoadEvent(rs, ps, day[slot])), false)] else []
  }

  /** A day of the dictionary: its header in bold, then its slot lines. */
  function LegacyDayLines(schedule: WeekMap, rs: seq<RoleRow>, ps: seq<PartRow>, d: Date): seq<string>
    requires d in schedule
  {
    DayBlock("*" + RuDateString(Legacy, d) + "*", LegacySlotLines(schedule[d], rs, ps, Slots))
  }

  function LegacyDayBlocks(schedule: WeekMap, rs: seq<RoleRow>, ps: seq<PartRow>, ws: seq<Date>): (r: seq<seq<string>>)
    requires forall d :: d in ws ==> d in schedule
    ensures |r| == |ws|
  {
    seq(|ws|, m requires 0 <= m < |ws| => LegacyDayLines(schedule, rs, ps, ws[m]))
  }

  function LegacyWeekLines(schedule: WeekMap, rs: seq<RoleRow>, ps: seq<PartRow>, ws: seq<Date>): seq<string>
    requires forall d :: d in ws ==> d in schedule
  {
    Concat(LegacyDayBlocks(schedule, rs, ps, ws))
  }

  /** `build_schedule_text(schedule)` of bot.py and bot_app/handlers.py. */
  function LegacyScheduleText(schedule: WeekMap, rs: seq<RoleRow>, ps: seq<PartRow>, week: seq<Date>): string
    requires forall d :: d in week ==> d in schedule
  {
    JoinOr(LegacyWeekLines(schedule, rs, ps, week), NoEventsThisWeek)
  }

  /** A day of the dictionary with an event in the morning or the evening gets a block. */
  lemma LegacyDayShown(day: map<string, EventRow>, rs: seq<RoleRow>, ps: seq<PartRow>)
    ensures LegacySlotLines(day, rs, ps, Slots) != [] <==> Morning in day || Evening in day
  {
    assert Slots[..1] == [Morning];
    assert Slots[1] == Evening;
    assert LegacySlotLines(day, rs, ps, Slots) == LegacySlotLines(day, rs, ps, [Morning]) + LegacyShown(day, rs, ps, Evening);
    assert [Morning][..0] == [];
    assert LegacySlotLines(day, rs, ps, [Morning]) == LegacySlotLines(day, rs, ps, []) + LegacyShown(day, rs, ps, Morning);
    assert LegacySlotLines(day, rs, ps, []) + LegacyShown(day, rs, ps, Morning) == LegacyShown(day, rs, ps, Morning);
  }

  /** The inner loop of the monolith's `build_schedule_text` over the slots of one day. */
  method LegacyRenderDay(day: map<string, EventRow>, rs: seq<RoleRow>, ps: seq<PartRow>) returns (dayLines: seq<string>)
    ensures dayLines == LegacySlotLines(day, rs, ps, Slots)
  {
    dayLines := [];
    for k := 0 to |Slots|
      invariant dayLines == LegacySlotLines(day, rs, ps, Slots[..k])
    {
      var slot := Slots[k];
      if slot in day {
        dayLines := dayLines + [SlotLine(slot, RowEntry(LoadEvent(rs, ps, day[slot])), false)];
      }
      TakeOneMore(Slots, k);
    }
    assert Slots[..|Slots|] == Slots;
  }

  /** The monolith's loops over the dictionary, proved against `LegacyScheduleText`. */
  method LegacyBuildScheduleText(schedule: WeekMap, rs: seq<RoleRow>, ps: seq<PartRow>, week: seq<Date>) returns (text: string)
    requires forall d :: d in week ==> d in schedule
    ensures text == LegacyScheduleText(schedule, rs, ps, week)
  {
    ghost var blocks := LegacyDayBlocks(schedule, rs, ps, week);
    var lines := [];
    for j := 0 to |week|
      invariant lines == Concat(blocks[..j])
    {
      var date := week[j];
      var dayLines := LegacyRenderDay(schedule[date], rs, ps);
      var header := "*" + RuDateString(Legacy, date) + "*";
      assert blocks[j] == DayBlock(header, dayLines);
      ConcatStep(blocks, j);
      lines := AddBlock(lines, header, dayLines);
    }
    assert blocks[..|week|] == blocks;
    text := if lines == [] then NoEventsThisWeek else Join("\n", lines);
  }
}
