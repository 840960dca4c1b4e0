/**
  The administration conversation of flows/admin.py: the week's morning and evening events
  are listed, one is chosen, "change time" is chosen, and the next text message, stripped,
  becomes the event's time.
*/
module AdminFlow {
  import opened Wrappers
  import opened Calendar
  import opened WeekCalendar
  import opened Defaults
  import opened Numerals
  import opened Tokens
  import opened Db
  import opened Store
  import opened Render
  import opened Dialogue
  import opened ParticipationFlow
  import IsoDate
  import PyStrings

  const EditTimeButton: Button := Button("Изменить время", "edittime")

  /** `datetime.fromisoformat(e.date).date() == date and e.slot == slot`. */
  predicate DtoAt(e: EventDto, d: Date, slot: string) {
    IsoDate.ParseIso(e.date) == Some(d) && e.slot == slot
  }

  /** `next((e for e in event_dtos if ...), None)`: the first DTO of that date and slot. */
  function FirstDtoAt(dtos: seq<EventDto>, d: Date, slot: string): (r: Option<EventDto>)
    ensures r.Some? ==> r.value in dtos && DtoAt(r.value, d, slot)
    ensures r.None? <==> forall i :: 0 <= i < |dtos| ==> !DtoAt(dtos[i], d, slot)
    ensures forall i :: 0 <= i < |dtos| && DtoAt(dtos[i], d, slot) && (forall j :: 0 <= j < i ==> !DtoAt(dtos[j], d, slot)) ==>
              r == Some(dtos[i])
  {
    if dtos == [] then None
    else if DtoAt(dtos[0], d, slot) then Some(dtos[0])
    else
      var r := FirstDtoAt(dtos[1..], d, slot);
      FirstDtoAtStep(dtos, d, slot, r);
      r
  }

  /** A first match in the tail is the first match of the whole sequence when the head does not match. */
  lemma FirstDtoAtStep(dtos: seq<EventDto>, d: Date, slot: string, r: Option<EventDto>)
    requires dtos != [] && !DtoAt(dtos[0], d, slot)
    requires r.Some? ==> r.value in dtos[1..] && DtoAt(r.value, d, slot)
    requires r.None? <==> forall i :: 0 <= i < |dtos| - 1 ==> !DtoAt(dtos[1..][i], d, slot)
    requires forall i :: 0 <= i < |dtos| - 1 && DtoAt(dtos[1..][i], d, slot) && (forall j :: 0 <= j < i ==> !DtoAt(dtos[1..][j], d, slot)) ==>
               r == Some(dtos[1..][i])
    ensures r.Some? ==> r.value in dtos && DtoAt(r.value, d, slot)
    ensures r.None? <==> forall i :: 0 <= i < |dtos| ==> !DtoAt(dtos[i], d, slot)
    ensures forall i :: 0 <= i < |dtos| && DtoAt(dtos[i], d, slot) && (forall j :: 0 <= j < i ==> !DtoAt(dtos[j], d, slot)) ==>
              r == Some(dtos[i])
  {
    var tail := dtos[1..];
    assert forall i :: 1 <= i < |dtos| ==> tail[i - 1] == dtos[i];
    forall i | 0 <= i < |dtos| && DtoAt(dtos[i], d, slot) && (forall j :: 0 <= j < i ==> !DtoAt(dtos[j], d, slot))
      ensures r == Some(dtos[i])
    {
      assert i >= 1;
      assert forall j :: 0 <= j < i - 1 ==> !DtoAt(tail[j], d, slot) by {
        forall j | 0 <= j < i - 1
          ensures !DtoAt(tail[j], d, slot)
        {
          assert tail[j] == dtos[j + 1];
        }
      }
    }
  }

  /**
    `f"{ru_date_string(event.date)}, {slot.capitalize()} ({event.time})"`. The event's ISO
    string parses to `d`, so its header is the one of `d` (`Render.RuDateOfIsoAgrees`).
  */
  function ManageLabel(d: Date, slot: string, time: string): string {
    RuDateString(Layered, d) + ", " + Capitalize(slot) + " (" + time + ")"
  }

  /** The button of one (date, slot): present when an event is there, carrying `manageevent|<id>`. */
  function ManageButton(dtos: seq<EventDto>, d: Date, slot: string): seq<Button> {
    match FirstDtoAt(dtos, d, slot)
    case None => []
    case Some(e) => [Button(ManageLabel(d, slot, e.time), MakeToken("manageevent", DecimalString(e.id)))]
  }

  /** The buttons of one date: its morning event, then its evening event. */
  function DayManageButtons(dtos: seq<EventDto>, d: Date): (bs: seq<Button>)
    ensures |bs| <= 2
  {
    ManageButton(dtos, d, Morning) + ManageButton(dtos, d, Evening)
  }

  /** The buttons of the dates of `ws`, date by date. */
  function ManageButtons(dtos: seq<EventDto>, ws: seq<Date>): (bs: seq<Button>)
    ensures |bs| <= 2 * |ws|
    decreases |ws|
  {
    if ws == [] then []
    else ManageButtons(dtos, ws[..|ws| - 1]) + DayManageButtons(dtos, ws[|ws| - 1])
  }

  /** The buttons of date `d` after the first `k` of its two slots. */
  function SlotsDone(dtos: seq<EventDto>, d: Date, k: int): seq<Button> {
    if k <= 0 then [] else if k == 1 then ManageButton(dtos, d, Morning) else DayManageButtons(dtos, d)
  }

  lemma SlotsDoneStep(dtos: seq<EventDto>, d: Date, k: int)
    requires 0 <= k < 2
    ensures SlotsDone(dtos, d, k + 1) == SlotsDone(dtos, d, k) + ManageButton(dtos, d, if k == 0 then Morning else Evening)
  {
  }

  /** The body of the inner loop: the button of (d, slot) when an event is there. */
  method AddManageButton(kb: seq<Button>, dtos: seq<EventDto>, d: Date, slot: string) returns (kb': seq<Button>)
    ensures kb' == kb + ManageButton(dtos, d, slot)
  {
    kb' := kb;
    var event := FirstDtoAt(dtos, d, slot);
    if event.Some? {
      var text := ManageLabel(d, slot, event.value.time);
      kb' := kb' + [Button(text, MakeToken("manageevent", DecimalString(event.value.id)))];
    }
  }

  lemma ManageButtonsStep(dtos: seq<EventDto>, week: seq<Date>, i: int)
    requires 0 <= i < |week|
    ensures ManageButtons(dtos, week[..i + 1]) == ManageButtons(dtos, week[..i]) + DayManageButtons(dtos, week[i])
  {
    assert week[..i + 1][..i] == week[..i];
  }

  /** The outer loop of `admin`, over `week_dates()`. */
  method ManageKeyboard(dtos: seq<EventDto>, week: seq<Date>) returns (kb: seq<Button>)
    ensures kb == ManageButtons(dtos, week)
  {
    kb := [];
    for i := 0 to |week|
      invariant kb == ManageButtons(dtos, week[..i])
    {
      ManageButtonsStep(dtos, week, i);
      kb := AddDayButtons(kb, dtos, week[i]);
    }
    assert week[..|week|] == week;
  }

  /** The inner loop of `admin`, over `["morning", "evening"]`. */
  method AddDayButtons(kb: seq<Button>, dtos: seq<EventDto>, d: Date) returns (kb': seq<Button>)
    ensures kb' == kb + DayManageButtons(dtos, d)
  {
    kb' := kb;
    for k := 0 to 2
      invariant kb' == kb + SlotsDone(dtos, d, k)
    {
      var slot := if k == 0 then Morning else Evening;
      SlotsDoneStep(dtos, d, k);
      AppendAssoc(kb, SlotsDone(dtos, d, k), ManageButton(dtos, d, slot));
      kb' := AddManageButton(kb', dtos, d, slot);
    }
  }

  // What the menu offers

  /** A (date, slot) with an event in the table has a DTO among the week's DTOs. */
  lemma SlotHasDto(es: seq<EventRow>, rs: seq<RoleRow>, ps: seq<PartRow>, week: seq<Date>, d: Date, s: string)
    requires d in week && HasEventAt(es, d, s)
    ensures FirstDtoAt(EventsForDates(es, rs, ps, week), d, s).Some?
  {
    var dtos := EventsForDates(es, rs, ps, week);
    var j := WeekDtoAt(es, rs, ps, week, d, s);
    assert DtoAt(dtos[j], d, s);
  }

  lemma {:induction false} ManageButtonsAll(dtos: seq<EventDto>, ws: seq<Date>)
    requires forall k :: 0 <= k < |ws| ==> FirstDtoAt(dtos, ws[k], Morning).Some? && FirstDtoAt(dtos, ws[k], Evening).Some?
    ensures |ManageButtons(dtos, ws)| == 2 * |ws|
    decreases |ws|
  {
    if ws != [] {
      var init := ws[..|ws| - 1];
      assert forall k :: 0 <= k < |init| ==> init[k] == ws[k];
      ManageButtonsAll(dtos, init);
      var d := ws[|ws| - 1];
      assert FirstDtoAt(dtos, d, Morning).Some? && FirstDtoAt(dtos, d, Evening).Some?;
    }
  }

  /**
    After `ensure_week_events` every (date, slot) of the week has an event, so the menu
    lists all fourteen events of the week.
  */
  lemma EnsuredWeekListsEverySlot(es: seq<EventRow>, rs: seq<RoleRow>, ps: seq<PartRow>, week: seq<Date>)
    requires forall d, s :: d in week && s in Slots ==> HasEventAt(es, d, s)
    ensures |ManageButtons(EventsForDates(es, rs, ps, week), week)| == 2 * |week|
  {
    var dtos := EventsForDates(es, rs, ps, week);
    forall k | 0 <= k < |week|
      ensures FirstDtoAt(dtos, week[k], Morning).Some? && FirstDtoAt(dtos, week[k], Evening).Some?
    {
      SlotHasDto(es, rs, ps, week, week[k], Morning);
      SlotHasDto(es, rs, ps, week, week[k], Evening);
    }
    ManageButtonsAll(dtos, week);
  }

  lemma {:induction false} ManageButtonFrom(dtos: seq<EventDto>, ws: seq<Date>, b: Button) returns (e: EventDto)
    requires b in ManageButtons(dtos, ws)
    ensures e in dtos && (e.slot == Morning || e.slot == Evening) && IsoDate.ParseIso(e.date).Some? && IsoDate.ParseIso(e.date).value in ws
    ensures b.data == MakeToken("manageevent", DecimalString(e.id))
    ensures FirstDtoAt(dtos, IsoDate.ParseIso(e.date).value, e.slot) == Some(e)
    decreases |ws|
  {
    var init := ws[..|ws| - 1];
    var d := ws[|ws| - 1];
    if b in ManageButtons(dtos, init) {
      e := ManageButtonFrom(dtos, init, b);
    } else {
      if b in ManageButton(dtos, d, Morning) {
        e := FirstDtoAt(dtos, d, Morning).value;
      } else {
        e := FirstDtoAt(dtos, d, Evening).value;
      }
    }
  }

  /** The first DTO of the morning or the evening slot of some date of `ws` has `id`. */
  predicate ListsId(dtos: seq<EventDto>, ws: seq<Date>, id: int) {
    exists d, slot :: d in ws && slot in Slots && HasId(FirstDtoAt(dtos, d, slot), id)
  }

  predicate HasId(r: Option<EventDto>, id: int) {
    r.Some? && r.value.id == id
  }

  /** The button of a slot of the date at position `k` is among the menu buttons of every longer prefix. */
  lemma {:induction false} ManageButtonInPrefix(dtos: seq<EventDto>, ws: seq<Date>, k: int, n: int, b: Button)
    requires 0 <= k < n <= |ws| && b in DayManageButtons(dtos, ws[k])
    ensures b in ManageButtons(dtos, ws[..n])
    decreases n
  {
    ManageButtonsStep(dtos, ws, n - 1);
    if k < n - 1 {
      ManageButtonInPrefix(dtos, ws, k, n - 1, b);
    }
  }

  /** The first DTO at a (date, slot) of `ws` has its button in the menu. */
  lemma ManageButtonOffered(dtos: seq<EventDto>, ws: seq<Date>, d: Date, slot: string, id: int) returns (b: Button)
    requires d in ws && (slot == Morning || slot == Evening) && HasId(FirstDtoAt(dtos, d, slot), id)
    ensures b in ManageButtons(dtos, ws) && b.data == MakeToken("manageevent", DecimalString(id))
  {
    var k :| 0 <= k < |ws| && ws[k] == d;
    ManageButtonData(dtos, d, slot);
    b := ManageButton(dtos, d, slot)[0];
    assert b in DayManageButtons(dtos, d);
    ManageButtonInPrefix(dtos, ws, k, |ws|, b);
    assert ws[..|ws|] == ws;
  }

  lemma ListedIdOffered(dtos: seq<EventDto>, ws: seq<Date>, id: int) returns (b: Button)
    requires ListsId(dtos, ws, id)
    ensures b in ManageButtons(dtos, ws) && TokenId(b.data) == Some(id)
  {
    var d, slot := ListsIdWitness(dtos, ws, id);
    b := ManageButtonOffered(dtos, ws, d, slot, id);
    ManageTokenId(id);
  }

  lemma ListsIdWitness(dtos: seq<EventDto>, ws: seq<Date>, id: int) returns (d: Date, slot: string)
    requires ListsId(dtos, ws, id)
    ensures d in ws && slot in Slots && HasId(FirstDtoAt(dtos, d, slot), id)
  {
    d, slot :| d in ws && slot in Slots && HasId(FirstDtoAt(dtos, d, slot), id);
  }

  /** The button of a (date, slot) carries the id of its first DTO. */
  lemma ManageButtonData(dtos: seq<EventDto>, d: Date, slot: string)
    requires FirstDtoAt(dtos, d, slot).Some?
    ensures ManageButton(dtos, d, slot) != []
    ensures ManageButton(dtos, d, slot)[0].data == MakeToken("manageevent", DecimalString(FirstDtoAt(dtos, d, slot).value.id))
  {
  }

  lemma OfferedIdListed(dtos: seq<EventDto>, ws: seq<Date>, b: Button)
    requires b in ManageButtons(dtos, ws)
    ensures TokenId(b.data).Some? && ListsId(dtos, ws, TokenId(b.data).value)
  {
    var e := ManageButtonFrom(dtos, ws, b);
    ManageTokenId(e.id);
    var d := IsoDate.ParseIso(e.date).value;
    assert d in ws && e.slot in Slots && HasId(FirstDtoAt(dtos, d, e.slot), e.id);
  }

  /**
    The menu offers a button whose token carries `id` exactly when the first DTO of the
    morning or the evening slot of some date of the week has that id.
  */
  lemma ManageButtonsIff(dtos: seq<EventDto>, ws: seq<Date>, id: int)
    ensures (exists b :: b in ManageButtons(dtos, ws) && TokenId(b.data) == Some(id)) <==> ListsId(dtos, ws, id)
  {
    if ListsId(dtos, ws, id) {
      var b := ListedIdOffered(dtos, ws, id);
    }
    if b :| b in ManageButtons(dtos, ws) && TokenId(b.data) == Some(id) {
      OfferedIdListed(dtos, ws, b);
    }
  }

  /** The select handler reads `id` back from a `manageevent|<id>` token. */
  lemma ManageTokenId(id: int)
    ensures TokenId(MakeToken("manageevent", DecimalString(id))) == Some(id)
  {
    TagsHaveNoBar();
    IdTokenRoundTrip("manageevent", id);
  }

  /** A `manageevent|<id>` token is routed to the select handler, which reads `id` back from it. */
  lemma ManageTokenRoutes(id: int)
    ensures var data := MakeToken("manageevent", DecimalString(id));
      && AdminRoute(ManageEventSelect, Press(data)) == Some(ManageSelectH)
      && data != "cancel" && TokenId(data) == Some(id)
  {
    TagsHaveNoBar();
    IdTokenRoundTrip("manageevent", id);
    var data := MakeToken("manageevent", DecimalString(id));
    assert data[..|"manageevent|"|] == "manageevent|";
    assert |data| > |"cancel"|;
    assert Matches(AdminStates(ManageEventSelect)[0].matcher, Press(data));
  }

  /** Every DTO of the week's events comes from a row of the table dated in the week. */
  lemma WeekDtoRow(es: seq<EventRow>, rs: seq<RoleRow>, ps: seq<PartRow>, week: seq<Date>, e: EventDto) returns (k: nat)
    requires e in EventsForDates(es, rs, ps, week)
    ensures k < |es| && es[k].id == e.id && es[k].slot == e.slot && es[k].date in week
  {
    var dtos := EventsForDates(es, rs, ps, week);
    var rows := SelectedEvents(es, week);
    var j :| 0 <= j < |dtos| && dtos[j] == e;
    assert rows[j] in rows;
    k :| 0 <= k < |es| && es[k] == rows[j];
  }

  /**
    Every event button of the menu is routed to `admin_manage_event_select` and names, by
    its id, an event row of this week in one of the two slots; with unique ids, the one
    whose time `admin_set_event_time` then changes.
  */
  lemma MenuButtonNamesWeekEvent(es: seq<EventRow>, rs: seq<RoleRow>, ps: seq<PartRow>, week: seq<Date>, b: Button)
    requires b in ManageButtons(EventsForDates(es, rs, ps, week), week)
    ensures AdminRoute(ManageEventSelect, Press(b.data)) == Some(ManageSelectH)
    ensures b.data != "cancel" && TokenId(b.data).Some?
    ensures EventIndex(es, TokenId(b.data).value).Some?
    ensures UniqueEventIds(es) ==>
      var row := es[EventIndex(es, TokenId(b.data).value).value];
      row.date in week && (row.slot == Morning || row.slot == Evening)
  {
    var e := ManageButtonFrom(EventsForDates(es, rs, ps, week), week, b);
    ManageTokenRoutes(e.id);
    var k := WeekDtoRow(es, rs, ps, week, e);
    if UniqueEventIds(es) {
      var m := EventIndex(es, e.id).value;
      assert es[m].id == es[k].id;
    }
  }

  // `admin_set_event_time` changes one event

  /** Changing the time at the first index of `id` changes the event with that id and no other. */
  lemma {:induction false} RetimeOnlyThatEvent(es: seq<EventRow>, id: int, t: string)
    requires EventIndex(es, id).Some?
    ensures var k := EventIndex(es, id).value;
      var after := es[k := es[k].(time := t)];
      && FindEvent(es, id) == Some(es[k])
      && FindEvent(after, id) == Some(es[k].(time := t))
      && forall other :: other != id ==> FindEvent(after, other) == FindEvent(es, other)
  {
    var k := EventIndex(es, id).value;
    var after := es[k := es[k].(time := t)];
    if k == 0 {
      assert after[1..] == es[1..];
    } else {
      assert EventIndex(es[1..], id) == Some(k - 1);
      RetimeOnlyThatEvent(es[1..], id, t);
      assert after[1..] == es[1..][k - 1 := es[k].(time := t)];
    }
  }

  /** `EventIndex` and `FindEvent` agree on whether an event has the id. */
  lemma IndexIffFound(es: seq<EventRow>, id: int)
    ensures EventIndex(es, id).Some? <==> FindEvent(es, id).Some?
  {
  }

  // The handlers

  /**
    `admin`: materialise the week, read its DTOs and offer each (date, slot) that has an
    event, then "Отмена". Anyone who sends the menu text gets here: there is no
    administrator check. With `EnsuredWeekListsEverySlot` the menu has 14 events.
  */
  method Admin(db: Database, today: Date) returns (step: Step)
    requires WindowFits(today) && db.Valid()
    modifies db
    ensures db.Valid() && WeekEnsured(RollingWeek(today), Layered, old(db.events), old(db.roles), db.events, db.roles)
    ensures db.parts == old(db.parts) && db.log == old(db.log)
    ensures var week := RollingWeek(today);
      step == Next(ManageEventSelect, ManageButtons(EventsForDates(db.events, db.roles, db.parts, week), week) + [CancelButton])
    ensures |step.buttons| == 15
  {
    db.EnsureWeekEvents(today);
    var week := RollingWeek(today);
    var dtos := EventsForDates(db.events, db.roles, db.parts, week);
    var keyboard := ManageKeyboard(dtos, week);
    EnsuredWeekListsEverySlot(db.events, db.roles, db.parts, week);
    step := Next(ManageEventSelect, keyboard + [CancelButton]);
  }

  /**
    The entry as the older revisions guard it: a user who is not an administrator is
    turned away and nothing is written.
  */
  method AdminChecked(db: Database, today: Date, isAdmin: bool) returns (step: Step)
    requires WindowFits(today) && db.Valid()
    modifies db
    ensures db.Valid()
    ensures !isAdmin ==> step == Done(NotAdmin) && db.events == old(db.events) && db.roles == old(db.roles)
    ensures isAdmin ==> WeekEnsured(RollingWeek(today), Layered, old(db.events), old(db.roles), db.events, db.roles)
    ensures isAdmin ==> var week := RollingWeek(today);
      step == Next(ManageEventSelect, ManageButtons(EventsForDates(db.events, db.roles, db.parts, week), week) + [CancelButton])
    ensures db.parts == old(db.parts) && db.log == old(db.log)
  {
    if !isAdmin {
      return Done(NotAdmin);
    }
    step := Admin(db, today);
  }

  /**
    `admin_manage_event_select`: "cancel" ends the conversation; otherwise the id after the
    bar is remembered and "change time" or "Отмена" is offered. A token that does not
    split in two or whose id is not an integer raises.
  */
  method SelectEvent(ud: UserData, data: string) returns (step: Step)
    modifies ud
    ensures data == "cancel" ==> step == Done(Cancelled) && ud.adminEventId == old(ud.adminEventId)
    ensures data != "cancel" && TokenId(data).None? ==> step == Raised && ud.adminEventId == old(ud.adminEventId)
    ensures data != "cancel" && TokenId(data).Some? ==>
      step == Next(EditEventChoice, [EditTimeButton, CancelButton]) && ud.adminEventId == TokenId(data)
    ensures ud.schedule == old(ud.schedule) && ud.chosenIso == old(ud.chosenIso) && ud.chosenEventId == old(ud.chosenEventId)
    ensures ud.weekMap == old(ud.weekMap) && ud.chosenDate == old(ud.chosenDate)
  {
    if data == "cancel" {
      return Done(Cancelled);
    }
    var id := TokenId(data);
    if id.None? {
      return Raised;
    }
    ud.adminEventId := id;
    step := Next(EditEventChoice, [EditTimeButton, CancelButton]);
  }

  /** `admin_edit_event_choice`: "edittime" asks for the time; anything else ends the edit. */
  function EditChoice(data: string): (step: Step)
    ensures step.Next? <==> data == "edittime"
    ensures step.Next? ==> step.state == SetEventTime && step.buttons == []
    ensures step.Done? ==> step.reply == EditCancelled
    ensures !step.Raised?
  {
    if data == "edittime" then Next(SetEventTime, []) else Done(EditCancelled)
  }

  /** The two buttons of the edit step lead to the time prompt and to the end of the edit. */
  lemma EditButtonsLead()
    ensures AdminRoute(EditEventChoice, Press(EditTimeButton.data)) == Some(EditChoiceH)
    ensures AdminRoute(EditEventChoice, Press(CancelButton.data)) == Some(EditChoiceH)
    ensures EditChoice(EditTimeButton.data) == Next(SetEventTime, [])
    ensures EditChoice(CancelButton.data) == Done(EditCancelled)
  {
  }

  /**
    `admin_set_event_time`: the stripped text becomes the time of the first event with the
    remembered id; with no remembered id (`filter_by(id=None)`) or no such event, nothing
    changes and "event not found" is answered.
  */
  method SetTime(db: Database, ud: UserData, text: string) returns (step: Step)
    requires db.Valid()
    modifies db
    ensures db.Valid()
    ensures step == Done(TimeChanged) || step == Done(EventNotFound)
    ensures Retimed(old(db.events), db.events, ud.adminEventId, PyStrings.Strip(text), step == Done(TimeChanged))
    ensures db.roles == old(db.roles) && db.parts == old(db.parts) && db.log == old(db.log)
  {
    var newTime := PyStrings.Strip(text);
    var id := ud.adminEventId;
    var found := db.SetEventTime(id, newTime);
    assert ud.adminEventId == id;
    step := if found then Done(TimeChanged) else Done(EventNotFound);
  }

  /**
    The events table `after` setting time `t` on the event with the remembered id, as seen
    through the lookups by id: something changed exactly when an event has the id, and then
    that event alone has the new time; otherwise the table is unchanged.
  */
  ghost predicate TimeSet(before: seq<EventRow>, after: seq<EventRow>, id: Option<int>, t: string, changed: bool) {
    && (changed <==> id.Some? && FindEvent(before, id.value).Some?)
    && (changed ==>
          && FindEvent(after, id.value) == Some(FindEvent(before, id.value).value.(time := t))
          && forall other :: other != id.value ==> FindEvent(after, other) == FindEvent(before, other))
    && (!changed ==> after == before)
    && |after| == |before|
  }

  /**
    What `event.time = new_time` on the first event with the id means for the lookups by id.
  */
  lemma SetTimeOutcome(before: seq<EventRow>, after: seq<EventRow>, id: Option<int>, t: string, found: bool)
    requires Retimed(before, after, id, t, found)
    ensures TimeSet(before, after, id, t, found)
  {
    if id.Some? {
      IndexIffFound(before, id.value);
      if found {
        RetimeOnlyThatEvent(before, id.value, t);
      }
    }
  }
}
