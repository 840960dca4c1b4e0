/**
  The participation conversation of flows/participation.py: the user picks a day of the
  rolling week, then a morning or evening event of that day, then one of the event's roles,
  and is signed up; `schedule_handler` answers "Расписание" with the week's schedule.
*/
module ParticipationFlow {
  import opened Wrappers
  import opened Calendar
  import opened WeekCalendar
  import opened Defaults
  import opened Numerals
  import opened Tokens
  import opened Db
  import opened Store
  import opened Render
  import opened Dialogue
  import IsoDate
  import Schedule

  /** `context.user_data["schedule"]`: ISO date -> slot -> event DTO. */
  type DaySchedule = map<string, map<string, EventDto>>

  /** `schedule.get(iso, {}).get(slot)`. */
  function Get(m: DaySchedule, iso: string, slot: string): Option<EventDto> {
    if iso in m && slot in m[iso] then Some(m[iso][slot]) else None
  }

  /** The last DTO dated `iso` in `slot`: a later DTO overwrites an earlier one in the dictionary. */
  function LastDto(dtos: seq<EventDto>, iso: string, slot: string): (r: Option<EventDto>)
    ensures r.Some? ==> r.value in dtos && r.value.date == iso && r.value.slot == slot
    ensures r.None? <==> forall i :: 0 <= i < |dtos| ==> dtos[i].date != iso || dtos[i].slot != slot
    decreases |dtos|
  {
    if dtos == [] then None
    else
      var e := dtos[|dtos| - 1];
      assert dtos == dtos[..|dtos| - 1] + [e];
      if e.date == iso && e.slot == slot then Some(e) else LastDto(dtos[..|dtos| - 1], iso, slot)
  }

  /** The ISO dates the DTOs carry. */
  function DatesOf(dtos: seq<EventDto>): set<string> {
    set i | 0 <= i < |dtos| :: dtos[i].date
  }

  /**
    `m` is the dictionary `participate_handler` builds from the DTOs: a key per DTO date,
    and under it each slot's last DTO.
  */
  ghost predicate IsDaySchedule(m: DaySchedule, dtos: seq<EventDto>) {
    && (forall iso :: iso in m <==> iso in DatesOf(dtos))
    && (forall iso, slot :: Get(m, iso, slot) == LastDto(dtos, iso, slot))
  }

  lemma LastDtoStep(dtos: seq<EventDto>, i: int, iso: string, slot: string)
    requires 0 <= i < |dtos|
    ensures LastDto(dtos[..i + 1], iso, slot)
      == if dtos[i].date == iso && dtos[i].slot == slot then Some(dtos[i]) else LastDto(dtos[..i], iso, slot)
  {
    var p := dtos[..i + 1];
    assert p[..|p| - 1] == dtos[..i];
    assert p[|p| - 1] == dtos[i];
  }

  /** `schedule = {e.date: {} for e in event_dtos}`, then `schedule[e.date][e.slot] = e` for each DTO. */
  method BuildDaySchedule(dtos: seq<EventDto>) returns (m: DaySchedule)
    ensures IsDaySchedule(m, dtos)
  {
    m := map iso | iso in DatesOf(dtos) :: map[];
    for i := 0 to |dtos|
      invariant forall iso :: iso in m <==> iso in DatesOf(dtos)
      invariant forall iso, slot :: Get(m, iso, slot) == LastDto(dtos[..i], iso, slot)
    {
      var e := dtos[i];
      assert e.date in DatesOf(dtos);
      m := m[e.date := m[e.date][e.slot := e]];
      forall iso, slot
        ensures Get(m, iso, slot) == LastDto(dtos[..i + 1], iso, slot)
      {
        LastDtoStep(dtos, i, iso, slot);
      }
    }
    assert dtos[..|dtos|] == dtos;
  }

  // The day keyboard

  /** The button of date `d`: shown when the date has a morning or an evening event. */
  function DayButton(dtos: seq<EventDto>, d: Date): seq<Button> {
    var iso := IsoDate.FormatIso(d);
    if LastDto(dtos, iso, Morning).Some? || LastDto(dtos, iso, Evening).Some? then
      [Button(RuDateString(Layered, d), MakeToken("chooseday", iso))]
    else []
  }

  /** The day buttons of `ws`, in the order of the dates. */
  function DayButtons(dtos: seq<EventDto>, ws: seq<Date>): (bs: seq<Button>)
    ensures |bs| <= |ws|
    decreases |ws|
  {
    if ws == [] then [] else DayButtons(dtos, ws[..|ws| - 1]) + DayButton(dtos, ws[|ws| - 1])
  }

  /**
    The loop over `week_dates()` of `participate_handler`. The label is
    `ru_date_string(date.isoformat())`, which is `RuDateString` of the date itself
    (`Render.RuDateOfIsoAgrees`).
  */
  method DayKeyboard(m: DaySchedule, week: seq<Date>, ghost dtos: seq<EventDto>) returns (kb: seq<Button>)
    requires IsDaySchedule(m, dtos)
    ensures kb == DayButtons(dtos, week)
  {
    kb := [];
    for i := 0 to |week|
      invariant kb == DayButtons(dtos, week[..i])
    {
      DayButtonsStep(dtos, week, i);
      var iso := IsoDate.FormatIso(week[i]);
      if Get(m, iso, Morning).Some? || Get(m, iso, Evening).Some? {
        kb := kb + [Button(RuDateString(Layered, week[i]), MakeToken("chooseday", iso))];
      }
    }
    assert week[..|week|] == week;
  }

  lemma DayButtonsStep(dtos: seq<EventDto>, week: seq<Date>, i: int)
    requires 0 <= i < |week|
    ensures DayButtons(dtos, week[..i + 1]) == DayButtons(dtos, week[..i]) + DayButton(dtos, week[i])
  {
    assert week[..i + 1][..i] == week[..i];
  }

  /** A date whose slot has an event in the table has a DTO of that slot in the week's DTOs. */
  lemma SlotListed(es: seq<EventRow>, rs: seq<RoleRow>, ps: seq<PartRow>, week: seq<Date>, d: Date, s: string)
    requires d in week && HasEventAt(es, d, s)
    ensures LastDto(EventsForDates(es, rs, ps, week), IsoDate.FormatIso(d), s).Some?
  {
    var dtos := EventsForDates(es, rs, ps, week);
    var j := WeekDtoAt(es, rs, ps, week, d, s);
    IsoDate.FormatParse(dtos[j].date, d);
    LastDtoFinds(dtos, j, IsoDate.FormatIso(d), s);
  }

  /** The event at (date, slot) of the week is loaded into one of the week's DTOs. */
  lemma WeekDtoAt(es: seq<EventRow>, rs: seq<RoleRow>, ps: seq<PartRow>, week: seq<Date>, d: Date, s: string) returns (j: int)
    requires d in week && HasEventAt(es, d, s)
    ensures var dtos := EventsForDates(es, rs, ps, week);
      0 <= j < |dtos| && IsoDate.ParseIso(dtos[j].date) == Some(d) && dtos[j].slot == s
  {
    var i :| 0 <= i < |es| && es[i].date == d && es[i].slot == s;
    var rows := SelectedEvents(es, week);
    assert es[i] in rows;
    j :| 0 <= j < |rows| && rows[j] == es[i];
    var dtos := EventsForDates(es, rs, ps, week);
    assert dtos[j] == ToEventDto(LoadEvent(rs, ps, rows[j]));
  }

  /** A DTO with that date and slot makes the search succeed. */
  lemma LastDtoFinds(dtos: seq<EventDto>, j: int, iso: string, slot: string)
    requires 0 <= j < |dtos| && dtos[j].date == iso && dtos[j].slot == slot
    ensures LastDto(dtos, iso, slot).Some?
  {
  }

  lemma {:induction false} DayButtonsAll(dtos: seq<EventDto>, ws: seq<Date>)
    requires forall k :: 0 <= k < |ws| ==> LastDto(dtos, IsoDate.FormatIso(ws[k]), Morning).Some?
    ensures |DayButtons(dtos, ws)| == |ws|
    decreases |ws|
  {
    if ws != [] {
      var init := ws[..|ws| - 1];
      assert forall k :: 0 <= k < |init| ==> init[k] == ws[k];
      DayButtonsAll(dtos, init);
    }
  }

  /**
    After `ensure_week_events` every (date, slot) of the week has an event, so every one of
    the seven dates gets a button: the day step never ends with "no events this week".
  */
  lemma EnsuredWeekOffersEveryDay(es: seq<EventRow>, rs: seq<RoleRow>, ps: seq<PartRow>, week: seq<Date>)
    requires forall d, s :: d in week && s in Slots ==> HasEventAt(es, d, s)
    ensures |DayButtons(EventsForDates(es, rs, ps, week), week)| == |week|
  {
    var dtos := EventsForDates(es, rs, ps, week);
    forall k | 0 <= k < |week|
      ensures LastDto(dtos, IsoDate.FormatIso(week[k]), Morning).Some?
    {
      SlotListed(es, rs, ps, week, week[k], Morning);
    }
    DayButtonsAll(dtos, week);
  }

  // The event keyboard of one day

  /** The button of one slot: `get_slot_label(slot, event.time)` with `chooseevent|<id>`. */
  function SlotButton(m: DaySchedule, iso: string, slot: string): seq<Button> {
    match Get(m, iso, slot)
    case Some(e) => [Button(SlotLabel(slot, e.time), MakeToken("chooseevent", DecimalString(e.id)))]
    case None => []
  }

  function SlotButtonsOf(m: DaySchedule, iso: string, slots: seq<string>): seq<Button> {
    if slots == [] then [] else SlotButtonsOf(m, iso, slots[..|slots| - 1]) + SlotButton(m, iso, slots[|slots| - 1])
  }

  /** The event buttons of a day: its morning, then its evening. */
  function SlotButtons(m: DaySchedule, iso: string): seq<Button> {
    SlotButtonsOf(m, iso, Slots)
  }

  lemma SlotButtonsOfDay(m: DaySchedule, iso: string)
    ensures SlotButtons(m, iso) == SlotButton(m, iso, Morning) + SlotButton(m, iso, Evening)
  {
    assert Slots[..1] == [Morning];
    assert Slots[1] == Evening;
    assert SlotButtonsOf(m, iso, Slots) == SlotButtonsOf(m, iso, [Morning]) + SlotButton(m, iso, Evening);
    assert [Morning][..0] == [];
    assert SlotButtonsOf(m, iso, [Morning]) == SlotButtonsOf(m, iso, []) + SlotButton(m, iso, Morning);
    assert SlotButtonsOf(m, iso, []) + SlotButton(m, iso, Morning) == SlotButton(m, iso, Morning);
  }

  /** The loop over the two slots of `choose_day`. */
  method EventKeyboard(schedule: DaySchedule, iso: string) returns (kb: seq<Button>)
    ensures kb == SlotButtons(schedule, iso)
  {
    kb := [];
    for k := 0 to |Slots|
      invariant kb == SlotButtonsOf(schedule, iso, Slots[..k])
    {
      var slot := Slots[k];
      var event := Get(schedule, iso, slot);
      if event.Some? {
        kb := kb + [Button(SlotLabel(slot, event.value.time), MakeToken("chooseevent", DecimalString(event.value.id)))];
      }
      assert Slots[..k + 1][..k] == Slots[..k];
    }
    assert Slots[..|Slots|] == Slots;
  }

  /** `_, value = data.split("|")` followed by `int(value)`. */
  function TokenId(data: string): Option<int> {
    match SplitToken(data)
    case None => None
    case Some(p) => ParseInt(p.1)
  }

  lemma IdTokensParse(tag: string)
    requires Bar !in tag
    ensures forall id :: TokenId(MakeToken(tag, DecimalString(id))) == Some(id)
  {
    forall id
      ensures TokenId(MakeToken(tag, DecimalString(id))) == Some(id)
    {
      IdTokenRoundTrip(tag, id);
    }
  }

  /** Every DTO of the week's events is the DTO of an event row of the table. */
  lemma WeekDtoInTable(es: seq<EventRow>, rs: seq<RoleRow>, ps: seq<PartRow>, week: seq<Date>, e: EventDto)
    requires e in EventsForDates(es, rs, ps, week)
    ensures FindEvent(es, e.id).Some?
  {
    var dtos := EventsForDates(es, rs, ps, week);
    var rows := SelectedEvents(es, week);
    var j :| 0 <= j < |dtos| && dtos[j] == e;
    assert rows[j] in rows;
  }

  /** The event buttons of a day carry the ids of the day's DTOs. */
  lemma SlotButtonIds(m: DaySchedule, iso: string, b: Button) returns (e: EventDto)
    requires b in SlotButtons(m, iso)
    ensures Get(m, iso, Morning) == Some(e) || Get(m, iso, Evening) == Some(e)
    ensures b.data == MakeToken("chooseevent", DecimalString(e.id))
  {
    SlotButtonsOfDay(m, iso);
    if b in SlotButton(m, iso, Morning) {
      e := Get(m, iso, Morning).value;
    } else {
      e := Get(m, iso, Evening).value;
    }
  }

  /** Every button a day offers carries the id of an event that is in the table. */
  lemma EventButtonFindsEvent(es: seq<EventRow>, rs: seq<RoleRow>, ps: seq<PartRow>, week: seq<Date>, m: DaySchedule, iso: string, b: Button)
    requires IsDaySchedule(m, EventsForDates(es, rs, ps, week)) && b in SlotButtons(m, iso)
    ensures b.data != "cancel" && TokenId(b.data).Some?
    ensures EventById(es, rs, ps, TokenId(b.data).value).Some?
  {
    var e := SlotButtonIds(m, iso, b);
    TagsHaveNoBar();
    IdTokenRoundTrip("chooseevent", e.id);
    assert TokenId(b.data) == Some(e.id);
    WeekDtoInTable(es, rs, ps, week, e);
  }

  /** The day buttons of `ws` are buttons of dates of `ws`. */
  lemma {:induction false} DayButtonFrom(dtos: seq<EventDto>, ws: seq<Date>, b: Button) returns (d: Date)
    requires b in DayButtons(dtos, ws)
    ensures d in ws && b in DayButton(dtos, d)
    decreases |ws|
  {
    var init := ws[..|ws| - 1];
    if b in DayButtons(dtos, init) {
      d := DayButtonFrom(dtos, init, b);
    } else {
      d := ws[|ws| - 1];
    }
  }

  /** The button of the date at position `k` is among the day buttons of every longer prefix. */
  lemma {:induction false} DayButtonInPrefix(dtos: seq<EventDto>, ws: seq<Date>, k: int, n: int, b: Button)
    requires 0 <= k < n <= |ws| && b in DayButton(dtos, ws[k])
    ensures b in DayButtons(dtos, ws[..n])
    decreases n
  {
    DayButtonsStep(dtos, ws, n - 1);
    var pre := DayButtons(dtos, ws[..n - 1]);
    var block := DayButton(dtos, ws[n - 1]);
    assert DayButtons(dtos, ws[..n]) == pre + block;
    if k < n - 1 {
      DayButtonInPrefix(dtos, ws, k, n - 1, b);
      assert b in pre;
    } else {
      assert b in block;
    }
  }

  /** A date of `ws` with a morning or an evening DTO has its button among the day buttons. */
  lemma DayButtonOffered(dtos: seq<EventDto>, ws: seq<Date>, d: Date)
    requires d in ws && DayButton(dtos, d) != []
    ensures DayButton(dtos, d)[0] in DayButtons(dtos, ws)
  {
    var k :| 0 <= k < |ws| && ws[k] == d;
    DayButtonInPrefix(dtos, ws, k, |ws|, DayButton(dtos, d)[0]);
    assert ws[..|ws|] == ws;
  }

  /** Some DTO is dated `iso` in the morning or the evening slot. */
  predicate HasSlottedDto(dtos: seq<EventDto>, iso: string) {
    exists i :: 0 <= i < |dtos| && dtos[i].date == iso && (dtos[i].slot == Morning || dtos[i].slot == Evening)
  }

  lemma SlottedDtoButton(dtos: seq<EventDto>, d: Date)
    requires HasSlottedDto(dtos, IsoDate.FormatIso(d))
    ensures DayButton(dtos, d) != []
  {
    var iso := IsoDate.FormatIso(d);
    var i :| 0 <= i < |dtos| && dtos[i].date == iso && (dtos[i].slot == Morning || dtos[i].slot == Evening);
    assert LastDto(dtos, iso, dtos[i].slot).Some?;
  }

  lemma ButtonSlottedDto(dtos: seq<EventDto>, d: Date)
    requires DayButton(dtos, d) != []
    ensures HasSlottedDto(dtos, IsoDate.FormatIso(d))
  {
    var iso := IsoDate.FormatIso(d);
    var slot := if LastDto(dtos, iso, Morning).Some? then Morning else Evening;
    var e := LastDto(dtos, iso, slot).value;
    var i :| 0 <= i < |dtos| && dtos[i] == e;
  }

  lemma SlottedDayOffered(dtos: seq<EventDto>, ws: seq<Date>, d: Date) returns (b: Button)
    requires d in ws && HasSlottedDto(dtos, IsoDate.FormatIso(d))
    ensures b in DayButtons(dtos, ws) && b.data == MakeToken("chooseday", IsoDate.FormatIso(d))
  {
    SlottedDtoButton(dtos, d);
    DayButtonOffered(dtos, ws, d);
    b := DayButton(dtos, d)[0];
  }

  lemma OfferedDaySlotted(dtos: seq<EventDto>, ws: seq<Date>, d: Date, b: Button)
    requires b in DayButtons(dtos, ws) && b.data == MakeToken("chooseday", IsoDate.FormatIso(d))
    ensures d in ws && HasSlottedDto(dtos, IsoDate.FormatIso(d))
  {
    var d' := DayButtonFrom(dtos, ws, b);
    TagsHaveNoBar();
    DateTokenInjective("chooseday", d, d');
    ButtonSlottedDto(dtos, d);
  }

  /**
    A date gets a button carrying `chooseday|<iso>` exactly when it is a date of the week
    and some DTO of the week is dated on it in the morning or the evening slot.
  */
  lemma DayButtonsIff(dtos: seq<EventDto>, ws: seq<Date>, d: Date)
    ensures (exists b :: b in DayButtons(dtos, ws) && b.data == MakeToken("chooseday", IsoDate.FormatIso(d)))
        <==> d in ws && HasSlottedDto(dtos, IsoDate.FormatIso(d))
  {
    if d in ws && HasSlottedDto(dtos, IsoDate.FormatIso(d)) {
      var b := SlottedDayOffered(dtos, ws, d);
    }
    if b :| b in DayButtons(dtos, ws) && b.data == MakeToken("chooseday", IsoDate.FormatIso(d)) {
      OfferedDaySlotted(dtos, ws, d, b);
    }
  }

  /** Every date the day step offers leads to an event step with at least one event. */
  lemma DayButtonLeadsToEvents(dtos: seq<EventDto>, ws: seq<Date>, m: DaySchedule, b: Button)
    requires IsDaySchedule(m, dtos) && b in DayButtons(dtos, ws)
    ensures b.data != "cancel" && SplitToken(b.data).Some?
    ensures SlotButtons(m, SplitToken(b.data).value.1) != []
  {
    var d := DayButtonFrom(dtos, ws, b);
    var iso := IsoDate.FormatIso(d);
    assert b.data == MakeToken("chooseday", iso);
    TagsHaveNoBar();
    DateTokenRoundTrip("chooseday", d);
    SlotButtonsOfDay(m, iso);
    assert Get(m, iso, Morning).Some? || Get(m, iso, Evening).Some?;
  }

  // The role keyboard

  /** One button per role of the event, in order, each carrying `chooserole|<id>`. */
  function RoleButtons(roles: seq<RoleDto>): (bs: seq<Button>)
    ensures |bs| == |roles|
    ensures forall i :: 0 <= i < |roles| ==>
      bs[i].text == roles[i].name && bs[i].data != "cancel" && TokenId(bs[i].data) == Some(roles[i].id)
  {
    TagsHaveNoBar();
    IdTokensParse("chooserole");
    seq(|roles|, i requires 0 <= i < |roles| => Button(roles[i].name, MakeToken("chooserole", DecimalString(roles[i].id))))
  }

  // The write of the role step

  /** `not username` is false: the user has a non-empty Telegram username. */
  predicate Named(username: Option<string>) {
    username.Some? && username.value != ""
  }

  /** What `choose_role` decides before it touches the table. */
  datatype SignupRequest = Stop(step: Step) | Write(username: string, eventId: int, roleId: int)

  /**
    The checks of `choose_role` in their order: the cancel token, the split of the data, the
    username, `context.user_data["chosen_event_id"]` (`KeyError` when absent) and `int(role_id)`.
  */
  function ReadSignup(data: string, username: Option<string>, chosen: Option<int>): (r: SignupRequest)
    ensures r.Write? <==> data != "cancel" && Named(username) && chosen.Some? && TokenId(data).Some?
    ensures r.Write? ==> r == Write(username.value, chosen.value, TokenId(data).value)
    ensures r.Stop? ==> r.step == if data == "cancel" then Done(Cancelled)
                                 else if SplitToken(data).Some? && !Named(username) then Done(NeedUsername)
                                 else Raised
  {
    if data == "cancel" then Stop(Done(Cancelled))
    else match SplitToken(data)
      case None => Stop(Raised)
      case Some(p) =>
        if !Named(username) then Stop(Done(NeedUsername))
        else if chosen.None? then Stop(Raised)
        else match ParseInt(p.1)
          case None => Stop(Raised)
          case Some(roleId) => Write(username.value, chosen.value, roleId)
  }

  /** `next((r for r in event.roles if r.id == role_id), None)`, by name. */
  function RoleNameIn(roles: seq<RoleDto>, id: int): (r: Option<string>)
    ensures r.Some? ==> exists i :: 0 <= i < |roles| && roles[i].id == id && roles[i].name == r.value
    ensures r.None? <==> forall i :: 0 <= i < |roles| ==> roles[i].id != id
  {
    if roles == [] then None
    else if roles[0].id == id then Some(roles[0].name)
    else
      var r := RoleNameIn(roles[1..], id);
      assert forall i :: 1 <= i < |roles| ==> roles[i] == roles[1..][i - 1];
      r
  }

  // The handlers

  /**
    The rest of `participate_handler` once the DTOs are read: group them by date and slot,
    and offer the dates that have an event, then "Отмена"; with no such date the
    conversation ends.
  */
  method OfferDays(ud: UserData, dtos: seq<EventDto>, week: seq<Date>) returns (step: Step)
    modifies ud
    ensures var days := DayButtons(dtos, week);
      && (days == [] ==> step == Done(NoEventsThisWeek) && ud.schedule == old(ud.schedule))
      && (days != [] ==> step == Next(ChoosingDay, days + [CancelButton]) && ud.schedule.Some? && IsDaySchedule(ud.schedule.value, dtos))
    ensures ud.chosenIso == old(ud.chosenIso) && ud.chosenEventId == old(ud.chosenEventId) && ud.adminEventId == old(ud.adminEventId)
    ensures ud.weekMap == old(ud.weekMap) && ud.chosenDate == old(ud.chosenDate)
  {
    var schedule := BuildDaySchedule(dtos);
    var keyboard := DayKeyboard(schedule, week, dtos);
    keyboard := keyboard + [CancelButton];
    if |keyboard| == 1 {
      step := Done(NoEventsThisWeek);
      return;
    }
    ud.schedule := Some(schedule);
    step := Next(ChoosingDay, keyboard);
  }

  /**
    `participate_handler`: materialise the week, read its DTOs (`get_week_schedule`) and
    offer its days. With `EnsuredWeekOffersEveryDay`, all seven days are offered.
  */
  method Participate(db: Database, ud: UserData, today: Date) returns (step: Step)
    requires WindowFits(today) && db.Valid()
    modifies db, ud
    ensures db.Valid() && WeekEnsured(RollingWeek(today), Layered, old(db.events), old(db.roles), db.events, db.roles)
    ensures forall d, s :: d in RollingWeek(today) && s in Slots ==> HasEventAt(db.events, d, s)
    ensures db.parts == old(db.parts) && db.log == old(db.log)
    ensures var dtos := EventsForDates(db.events, db.roles, db.parts, RollingWeek(today));
      var days := DayButtons(dtos, RollingWeek(today));
      && (days == [] ==> step == Done(NoEventsThisWeek) && ud.schedule == old(ud.schedule))
      && (days != [] ==> step == Next(ChoosingDay, days + [CancelButton]) && ud.schedule.Some? && IsDaySchedule(ud.schedule.value, dtos))
    ensures ud.chosenIso == old(ud.chosenIso) && ud.chosenEventId == old(ud.chosenEventId) && ud.adminEventId == old(ud.adminEventId)
    ensures ud.weekMap == old(ud.weekMap) && ud.chosenDate == old(ud.chosenDate)
  {
    db.EnsureWeekEvents(today);
    var week := RollingWeek(today);
    var dtos := EventsForDates(db.events, db.roles, db.parts, week);
    step := OfferDays(ud, dtos, week);
  }

  /**
    `choose_day`: store the chosen ISO date and offer its morning and evening events, then
    "Отмена"; a day with neither ends the conversation.
  */
  method ChooseDay(ud: UserData, data: string) returns (step: Step)
    modifies ud
    ensures data == "cancel" ==> step == Done(Cancelled) && ud.chosenIso == old(ud.chosenIso)
    ensures data != "cancel" && SplitToken(data).None? ==> step == Raised && ud.chosenIso == old(ud.chosenIso)
    ensures data != "cancel" && SplitToken(data).Some? ==>
      var iso := SplitToken(data).value.1;
      && ud.chosenIso == Some(iso)
      && (old(ud.schedule).None? ==> step == Raised)
      && (old(ud.schedule).Some? ==>
            var bs := SlotButtons(old(ud.schedule).value, iso);
            step == if bs == [] then Done(NoEventsOnDay) else Next(ChoosingEvent, bs + [CancelButton]))
    ensures ud.schedule == old(ud.schedule) && ud.chosenEventId == old(ud.chosenEventId) && ud.adminEventId == old(ud.adminEventId)
    ensures ud.weekMap == old(ud.weekMap) && ud.chosenDate == old(ud.chosenDate)
  {
    if data == "cancel" {
      return Done(Cancelled);
    }
    var parts := SplitToken(data);
    if parts.None? {
      return Raised;
    }
    var iso := parts.value.1;
    ud.chosenIso := Some(iso);
    if ud.schedule.None? {
      return Raised;
    }
    var keyboard := EventKeyboard(ud.schedule.value, iso);
    keyboard := keyboard + [CancelButton];
    if |keyboard| == 1 {
      return Done(NoEventsOnDay);
    }
    step := Next(ChoosingEvent, keyboard);
  }

  /**
    `choose_event`: store the event id and offer the event's roles, then "Отмена"; an
    unknown event or one without roles ends the conversation.
  */
  method ChooseEvent(db: Database, ud: UserData, data: string) returns (step: Step)
    modifies ud
    ensures data == "cancel" ==> step == Done(Cancelled) && ud.chosenEventId == old(ud.chosenEventId)
    ensures data != "cancel" && TokenId(data).None? ==> step == Raised && ud.chosenEventId == old(ud.chosenEventId)
    ensures data != "cancel" && TokenId(data).Some? ==>
      && ud.chosenEventId == TokenId(data)
      && match EventById(db.events, db.roles, db.parts, TokenId(data).value)
         case None => step == Done(EventNotFound)
         case Some(ev) => step == if ev.roles == [] then Done(NoRoles) else Next(ChoosingRole, RoleButtons(ev.roles) + [CancelButton])
    ensures ud.schedule == old(ud.schedule) && ud.chosenIso == old(ud.chosenIso) && ud.adminEventId == old(ud.adminEventId)
    ensures ud.weekMap == old(ud.weekMap) && ud.chosenDate == old(ud.chosenDate)
  {
    if data == "cancel" {
      return Done(Cancelled);
    }
    var eventId := TokenId(data);
    if eventId.None? {
      return Raised;
    }
    ud.chosenEventId := eventId;
    var event := EventById(db.events, db.roles, db.parts, eventId.value);
    if event.None? {
      return Done(EventNotFound);
    }
    var roles := event.value.roles;
    if roles == [] {
      return Done(NoRoles);
    }
    step := Next(ChoosingRole, RoleButtons(roles) + [CancelButton]);
  }

  /**
    `choose_role`: unless the same user already holds that role in that event, insert one
    participation and notify the administrators. The role is not checked against the
    event's roles. When the event is gone by the time it is read back, the handler raises
    after the insert, and no notification is sent.
  */
  method ChooseRole(db: Database, ud: UserData, data: string, username: Option<string>) returns (step: Step)
    requires db.Valid()
    modifies db
    ensures db.Valid() && db.events == old(db.events) && db.roles == old(db.roles)
    ensures match ReadSignup(data, username, ud.chosenEventId)
      case Stop(s) => step == s && db.parts == old(db.parts) && db.log == old(db.log)
      case Write(u, eventId, roleId) =>
        && HasTriple(db.parts, eventId, roleId, u)
        && (HasTriple(old(db.parts), eventId, roleId, u) ==>
              step == Done(AlreadySignedUp) && db.parts == old(db.parts) && db.log == old(db.log))
        && (!HasTriple(old(db.parts), eventId, roleId, u) ==>
              && db.parts == old(db.parts) + [PartRow(NextId(PartIds(old(db.parts))), u, eventId, roleId)]
              && match FindEvent(db.events, eventId)
                 case None => step == Raised && db.log == old(db.log)
                 case Some(row) =>
                   var ev := ToEventDto(LoadEvent(db.roles, db.parts, row));
                   step == Done(SignedUp)
                   && db.log == old(db.log) + [SignupNotice(Some(u), EventWhen(row.date, ev.time), RoleText(RoleNameIn(ev.roles, roleId)))])
    ensures NoDuplicateTriples(old(db.parts)) ==> NoDuplicateTriples(db.parts)
  {
    if data == "cancel" {
      return Done(Cancelled);
    }
    var parts := SplitToken(data);
    if parts.None? {
      return Raised;
    }
    if !Named(username) {
      return Done(NeedUsername);
    }
    var u := username.value;
    if ud.chosenEventId.None? {
      return Raised;
    }
    var eventId := ud.chosenEventId.value;
    var roleId := ParseInt(parts.value.1);
    if roleId.None? {
      return Raised;
    }
    var inserted := db.Signup(u, eventId, roleId.value);
    if !inserted {
      return Done(AlreadySignedUp);
    }
    var row := FindEvent(db.events, eventId);
    if row.None? {
      return Raised;
    }
    var event := ToEventDto(LoadEvent(db.roles, db.parts, row.value));
    var role := RoleNameIn(event.roles, roleId.value);
    db.Notify(SignupNotice(Some(u), EventWhen(row.value.date, event.time), RoleText(role)));
    step := Done(SignedUp);
  }

  /**
    `schedule_handler` as written: after the week is materialised it calls
    `build_schedule_text(event_dtos, markdown=False)`, a keyword the function does not
    accept, so every call raises `TypeError` and no schedule is sent.
  */
  method ScheduleHandlerAsWritten(db: Database, today: Date) returns (reply: Option<string>)
    requires WindowFits(today) && db.Valid()
    modifies db
    ensures db.Valid() && WeekEnsured(RollingWeek(today), Layered, old(db.events), old(db.roles), db.events, db.roles)
    ensures db.parts == old(db.parts) && db.log == old(db.log)
    ensures reply.None?
  {
    db.EnsureWeekEvents(today);
    reply := None;
  }

  /** `schedule_handler` with the call as the function accepts it: the week's schedule text is sent. */
  method ScheduleHandler(db: Database, today: Date) returns (reply: Option<string>)
    requires WindowFits(today) && db.Valid()
    modifies db
    ensures db.Valid() && WeekEnsured(RollingWeek(today), Layered, old(db.events), old(db.roles), db.events, db.roles)
    ensures db.parts == old(db.parts) && db.log == old(db.log)
    ensures reply == Schedule.ScheduleText(EventsForDates(db.events, db.roles, db.parts, RollingWeek(today)), RollingWeek(today))
    ensures reply.Some?
  {
    db.EnsureWeekEvents(today);
    var week := RollingWeek(today);
    var dtos := EventsForDates(db.events, db.roles, db.parts, week);
    reply := Schedule.BuildScheduleText(dtos, week);
    Schedule.WeekEventsRender(db.events, db.roles, db.parts, week);
  }
}
