/**
  The administration conversation of bot.py and bot_app/handlers.py: only the ids in
  `ADMIN_IDS` get in; the menu lists the week's events from the dictionary of
  `get_events_for_week`, with no cancel button, and the edit step answers "edittime" or
  "canceladmin". The edit choice and the new time are handled by the same code as in the
  layered revision (`AdminFlow.EditChoice`, `AdminFlow.SetTime`).
*/
module LegacyAdmin {
  import opened Wrappers
  import opened Calendar
  import opened WeekCalendar
  import opened Defaults
  import opened Numerals
  import opened Tokens
  import opened Db
  import opened Store
  import opened Render
  import opened Dialogue
  import opened ParticipationFlow
  import AdminFlow
  import LegacyFlow
  import Schedule

  const CancelAdminButton: Button := Button("Отмена", "canceladmin")

  // The menu

  /** The button of (d, slot) in the older `admin`: the event the dictionary holds there, if any. */
  function ManageButton(m: Schedule.WeekMap, d: Date, slot: string): seq<Button> {
    if d in m && slot in m[d]
    then [Button(RuDateString(Legacy, d) + ", " + SlotLabel(slot, m[d][slot].time), MakeToken("manageevent", DecimalString(m[d][slot].id)))]
    else []
  }

  function DayManageButtons(m: Schedule.WeekMap, d: Date): seq<Button> {
    ManageButton(m, d, Morning) + ManageButton(m, d, Evening)
  }

  function ManageButtons(m: Schedule.WeekMap, ws: seq<Date>): (bs: seq<Button>)
    ensures |bs| <= 2 * |ws|
    decreases |ws|
  {
    if ws == [] then [] else ManageButtons(m, ws[..|ws| - 1]) + DayManageButtons(m, ws[|ws| - 1])
  }

  /** The buttons of date `d` after the first `k` of its two slots. */
  function SlotsDone(m: Schedule.WeekMap, d: Date, k: int): seq<Button> {
    if k <= 0 then [] else if k == 1 then ManageButton(m, d, Morning) else DayManageButtons(m, d)
  }

  /** The body of the inner loop: `schedule[date].get(slot)` and its button. */
  method AddManageButton(kb: seq<Button>, m: Schedule.WeekMap, d: Date, slot: string) returns (kb': seq<Button>)
    requires d in m
    ensures kb' == kb + ManageButton(m, d, slot)
  {
    kb' := kb;
    if slot in m[d] {
      var event := m[d][slot];
      kb' := kb' + [Button(RuDateString(Legacy, d) + ", " + SlotLabel(slot, event.time), MakeToken("manageevent", DecimalString(event.id)))];
    }
  }

  /** The inner loop of the older `admin`, over `["morning", "evening"]`. */
  method AddDayButtons(kb: seq<Button>, m: Schedule.WeekMap, d: Date) returns (kb': seq<Button>)
    requires d in m
    ensures kb' == kb + DayManageButtons(m, d)
  {
    kb' := kb;
    for k := 0 to 2
      invariant kb' == kb + SlotsDone(m, d, k)
    {
      var slot := if k == 0 then Morning else Evening;
      AppendAssoc(kb, SlotsDone(m, d, k), ManageButton(m, d, slot));
      kb' := AddManageButton(kb', m, d, slot);
    }
  }

  /** The outer loop of the older `admin`, over `week_dates()`. */
  method ManageKeyboard(m: Schedule.WeekMap, week: seq<Date>) returns (kb: seq<Button>)
    requires forall d :: d in week ==> d in m
    ensures kb == ManageButtons(m, week)
  {
    kb := [];
    for i := 0 to |week|
      invariant kb == ManageButtons(m, week[..i])
    {
      ManageButtonsStep(m, week, i);
      kb := AddDayButtons(kb, m, week[i]);
    }
    assert week[..|week|] == week;
  }

  lemma ManageButtonsStep(m: Schedule.WeekMap, week: seq<Date>, i: int)
    requires 0 <= i < |week|
    ensures ManageButtons(m, week[..i + 1]) == ManageButtons(m, week[..i]) + DayManageButtons(m, week[i])
  {
    assert week[..i + 1][..i] == week[..i];
  }

  lemma {:induction false} ManageButtonsAll(m: Schedule.WeekMap, ws: seq<Date>)
    requires forall k :: 0 <= k < |ws| ==> ws[k] in m && Morning in m[ws[k]] && Evening in m[ws[k]]
    ensures |ManageButtons(m, ws)| == 2 * |ws|
    decreases |ws|
  {
    if ws != [] {
      var init := ws[..|ws| - 1];
      assert forall k :: 0 <= k < |init| ==> init[k] == ws[k];
      ManageButtonsAll(m, init);
    }
  }

  /** When the week was empty and has been filled, the menu lists its fourteen events. */
  lemma FilledWeekListsEverySlot(v: LegacyFlow.Variant, week: seq<Date>, oldEvents: seq<EventRow>, oldRoles: seq<RoleRow>,
                                 events: seq<EventRow>, roles: seq<RoleRow>)
    requires LegacyFlow.WeekFilled(v, week, oldEvents, oldRoles, events, roles, true) && |EventsOn(oldEvents, week)| == 0
    ensures |ManageButtons(LegacyFlow.WeekMapOf(events, week), week)| == 2 * |week|
  {
    var m := LegacyFlow.WeekMapOf(events, week);
    forall k | 0 <= k < |week|
      ensures week[k] in m && Morning in m[week[k]] && Evening in m[week[k]]
    {
      LegacyFlow.FilledWeekCovered(v, week, oldEvents, oldRoles, events, roles, week[k], Morning);
      LegacyFlow.FilledWeekCovered(v, week, oldEvents, oldRoles, events, roles, week[k], Evening);
      LegacyFlow.InWeekMap(events, week, week[k], Morning);
      LegacyFlow.InWeekMap(events, week, week[k], Evening);
    }
    ManageButtonsAll(m, week);
  }

  lemma {:induction false} ManageButtonFrom(m: Schedule.WeekMap, ws: seq<Date>, b: Button) returns (d: Date, slot: string)
    requires b in ManageButtons(m, ws)
    ensures d in ws && d in m && (slot == Morning || slot == Evening) && slot in m[d]
    ensures b.data == MakeToken("manageevent", DecimalString(m[d][slot].id))
    decreases |ws|
  {
    var init := ws[..|ws| - 1];
    if b in ManageButtons(m, init) {
      d, slot := ManageButtonFrom(m, init, b);
    } else {
      d := ws[|ws| - 1];
      slot := if b in ManageButton(m, d, Morning) then Morning else Evening;
    }
  }

  /** The dictionary holds an event with `id` in the morning or the evening slot of a date of `ws`. */
  predicate HoldsId(m: Schedule.WeekMap, ws: seq<Date>, id: int) {
    exists d, slot :: d in ws && d in m && (slot == Morning || slot == Evening) && slot in m[d] && m[d][slot].id == id
  }

  /** The button of a slot of the date at position `k` is among the menu buttons of every longer prefix. */
  lemma {:induction false} ManageButtonInPrefix(m: Schedule.WeekMap, ws: seq<Date>, k: int, n: int, b: Button)
    requires 0 <= k < n <= |ws| && b in DayManageButtons(m, ws[k])
    ensures b in ManageButtons(m, ws[..n])
    decreases n
  {
    ManageButtonsStep(m, ws, n - 1);
    if k < n - 1 {
      ManageButtonInPrefix(m, ws, k, n - 1, b);
    }
  }

  /** The event the dictionary holds at a (date, slot) of `ws` has its button in the menu. */
  lemma ManageButtonOffered(m: Schedule.WeekMap, ws: seq<Date>, d: Date, slot: string)
    requires d in ws && d in m && (slot == Morning || slot == Evening) && slot in m[d]
    ensures ManageButton(m, d, slot) != [] && ManageButton(m, d, slot)[0] in ManageButtons(m, ws)
  {
    var k :| 0 <= k < |ws| && ws[k] == d;
    assert ManageButton(m, d, slot)[0] in DayManageButtons(m, d);
    ManageButtonInPrefix(m, ws, k, |ws|, ManageButton(m, d, slot)[0]);
    assert ws[..|ws|] == ws;
  }

  /**
    The menu offers a button whose token carries `id` exactly when the dictionary holds an
    event with that id in the morning or the evening slot of a date of the week.
  */
  lemma ManageButtonsIff(m: Schedule.WeekMap, ws: seq<Date>, id: int)
    ensures (exists b :: b in ManageButtons(m, ws) && TokenId(b.data) == Some(id)) <==> HoldsId(m, ws, id)
  {
    if HoldsId(m, ws, id) {
      var d, slot :| d in ws && d in m && (slot == Morning || slot == Evening) && slot in m[d] && m[d][slot].id == id;
      ManageButtonOffered(m, ws, d, slot);
      ManageTokenRoutes(id);
      assert ManageButton(m, d, slot)[0].data == MakeToken("manageevent", DecimalString(id));
    }
    if b :| b in ManageButtons(m, ws) && TokenId(b.data) == Some(id) {
      var d, slot := ManageButtonFrom(m, ws, b);
      ManageTokenRoutes(m[d][slot].id);
    }
  }

  /**
    Every button of the menu is routed to the select step and names, by its id, an event of
    the table dated in the week.
  */
  lemma MenuButtonNamesWeekEvent(es: seq<EventRow>, week: seq<Date>, b: Button)
    requires b in ManageButtons(LegacyFlow.WeekMapOf(es, week), week)
    ensures LegacyAdminRoute(ManageEventSelect, Press(b.data)) == Some(ManageSelectH)
    ensures TokenId(b.data).Some? && FindEvent(es, TokenId(b.data).value).Some?
  {
    var m := LegacyFlow.WeekMapOf(es, week);
    var d, slot := ManageButtonFrom(m, week, b);
    var e := m[d][slot];
    LegacyFlow.WeekMapRowInTable(es, week, d, slot);
    ManageTokenRoutes(e.id);
  }

  /** A `manageevent|<id>` token is routed to the older select handler, which reads `id` back from it. */
  lemma ManageTokenRoutes(id: int)
    ensures var data := MakeToken("manageevent", DecimalString(id));
      LegacyAdminRoute(ManageEventSelect, Press(data)) == Some(ManageSelectH) && TokenId(data) == Some(id)
  {
    TagsHaveNoBar();
    IdTokenRoundTrip("manageevent", id);
    var data := MakeToken("manageevent", DecimalString(id));
    assert data[..|"manageevent|"|] == "manageevent|";
    assert Matches(LegacyAdminStates(ManageEventSelect)[0].matcher, Press(data));
  }

  // The handlers

  /**
    The older `admin`: a user whose id is not in `ADMIN_IDS` is turned away; otherwise the
    week is filled and its events are offered. In the split revision a failed fill raises.
  */
  method Admin(db: Database, today: Date, v: LegacyFlow.Variant, isAdmin: bool) returns (step: Step)
    requires WindowFits(MondayOf(today)) && db.Valid()
    modifies db
    ensures db.Valid() && db.parts == old(db.parts) && db.log == old(db.log)
    ensures !isAdmin ==> step == Done(NotAdmin) && db.events == old(db.events) && db.roles == old(db.roles)
    ensures isAdmin ==>
      LegacyFlow.WeekFilled(v, MondayWeek(today), old(db.events), old(db.roles), db.events, db.roles, step != Raised)
    ensures isAdmin && step != Raised ==>
      var week := MondayWeek(today);
      step == Next(ManageEventSelect, ManageButtons(LegacyFlow.WeekMapOf(db.events, week), week))
  {
    if !isAdmin {
      return Done(NotAdmin);
    }
    var ok := LegacyFlow.EnsureWeek(db, today, v);
    if !ok {
      return Raised;
    }
    var week := MondayWeek(today);
    var schedule := Schedule.GetEventsForWeek(db.events, week);
    LegacyFlow.WeekMapIs(schedule, db.events, week);
    var keyboard := ManageKeyboard(schedule, week);
    step := Next(ManageEventSelect, keyboard);
  }

  /** The older `admin_manage_event_select`: remember the id and offer "edittime" or "canceladmin". */
  method SelectEvent(ud: UserData, data: string) returns (step: Step)
    modifies ud
    ensures TokenId(data).None? ==> step == Raised && ud.adminEventId == old(ud.adminEventId)
    ensures TokenId(data).Some? ==>
      step == Next(EditEventChoice, [AdminFlow.EditTimeButton, CancelAdminButton]) && ud.adminEventId == TokenId(data)
    ensures ud.schedule == old(ud.schedule) && ud.chosenIso == old(ud.chosenIso) && ud.chosenEventId == old(ud.chosenEventId)
    ensures ud.weekMap == old(ud.weekMap) && ud.chosenDate == old(ud.chosenDate)
  {
    var id := TokenId(data);
    if id.None? {
      return Raised;
    }
    ud.adminEventId := id;
    step := Next(EditEventChoice, [AdminFlow.EditTimeButton, CancelAdminButton]);
  }

  /** The two buttons of the older edit step lead to the time prompt and to the end of the edit. */
  lemma EditButtonsLead()
    ensures LegacyAdminRoute(EditEventChoice, Press(AdminFlow.EditTimeButton.data)) == Some(EditChoiceH)
    ensures LegacyAdminRoute(EditEventChoice, Press(CancelAdminButton.data)) == Some(EditChoiceH)
    ensures AdminFlow.EditChoice(AdminFlow.EditTimeButton.data) == Next(SetEventTime, [])
    ensures AdminFlow.EditChoice(CancelAdminButton.data) == Done(EditCancelled)
  {
  }
}
