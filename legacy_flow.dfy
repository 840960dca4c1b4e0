/**
  The participation conversation of the two older revisions, bot.py (the monolith) and
  bot_app/handlers.py (the split revision), and what the rest of their handlers share:
  the week runs from Monday to Sunday, `ensure_week_events` fills it only when none of its
  days has an event, the conversation keeps the event rows themselves in
  `context.user_data["schedule"]`, there are no cancel buttons, and slot names are looked
  up with `SLOT_RU[...]`, which raises on a slot it does not know.
*/
module LegacyFlow {
  import opened Wrappers
  import opened Calendar
  import opened WeekCalendar
  import opened Defaults
  import opened Numerals
  import opened Tokens
  import opened Db
  import opened Store
  import opened Render
  import opened Dialogue
  import ParticipationFlow
  import IsoDate
  import Schedule

  /** Which of the older revisions: they differ in where `ensure_week_events` gets its roles. */
  datatype Variant = Monolith | Split

  // Filling the week

  /**
    What `ensure_week_events` of revision `v` leaves in the tables for `week`. `ok` is false
    when the split revision's write fails because a default role is missing; nothing is
    written then.
  */
  ghost predicate WeekFilled(v: Variant, week: seq<Date>, oldEvents: seq<EventRow>, oldRoles: seq<RoleRow>,
                             events: seq<EventRow>, roles: seq<RoleRow>, ok: bool) {
    var empty := |EventsOn(oldEvents, week)| == 0;
    && (!ok <==> v == Split && empty && !AllNamed(oldRoles, DefaultRoles))
    && (ok && empty ==>
          roles == (if v == Monolith then AddRolesIfMissing(oldRoles, DefaultRoles) else oldRoles)
          && AllNamed(roles, DefaultRoles)
          && events == oldEvents + NewEvents(WeekPairs(week), NextId(EventIds(oldEvents)), RoleIdsFor(roles, DefaultRoles), Legacy))
    && (!ok || !empty ==> roles == oldRoles && events == oldEvents)
  }

  /** `ensure_week_events` of either revision, for the Monday-to-Sunday week of `today`. */
  method EnsureWeek(db: Database, today: Date, v: Variant) returns (ok: bool)
    requires WindowFits(MondayOf(today)) && db.Valid()
    modifies db
    ensures db.Valid()
    ensures WeekFilled(v, MondayWeek(today), old(db.events), old(db.roles), db.events, db.roles, ok)
    ensures db.parts == old(db.parts) && db.log == old(db.log)
  {
    if v == Monolith {
      db.EnsureWeekAllOrNothing(today);
      ok := true;
    } else {
      ok := db.EnsureWeekExistingRoles(today);
    }
  }

  /** A week that was empty and has been filled has a morning and an evening event on each day. */
  lemma FilledWeekCovered(v: Variant, week: seq<Date>, oldEvents: seq<EventRow>, oldRoles: seq<RoleRow>,
                          events: seq<EventRow>, roles: seq<RoleRow>, d: Date, s: string)
    requires WeekFilled(v, week, oldEvents, oldRoles, events, roles, true) && |EventsOn(oldEvents, week)| == 0
    requires d in week && s in Slots
    ensures HasEventAt(events, d, s)
  {
    MissingAllWhenWeekEmpty(WeekPairs(week), week, oldEvents);
    MaterialisedWeekCovered(week, oldEvents, NextId(EventIds(oldEvents)), RoleIdsFor(roles, DefaultRoles), Legacy, d, s);
  }

  // The dictionary of `get_events_for_week`

  /** The slots of the rows dated `d`. */
  function SlotsOn(rows: seq<EventRow>, d: Date): set<string> {
    set i | 0 <= i < |rows| && rows[i].date == d :: rows[i].slot
  }

  /** `schedule[d]`: each slot of date `d` holds the last of its rows, since later rows overwrite. */
  function DayMapOf(rows: seq<EventRow>, d: Date): (day: map<string, EventRow>)
    ensures forall s :: s in day <==> Schedule.Latest(rows, d, s).Some?
    ensures forall s :: s in day ==> Schedule.Latest(rows, d, s) == Some(day[s])
  {
    forall s | s in SlotsOn(rows, d)
      ensures Schedule.Latest(rows, d, s).Some?
    {
      var i :| 0 <= i < |rows| && rows[i].date == d && rows[i].slot == s;
    }
    map s | s in SlotsOn(rows, d) :: Schedule.Latest(rows, d, s).value
  }

  /**
    The dictionary `get_events_for_week` returns: a key for every date of the week, and
    under it the day's events by slot, read in date and slot order.
  */
  function WeekMapOf(es: seq<EventRow>, week: seq<Date>): (m: Schedule.WeekMap)
    ensures forall d :: d in m <==> d in week
  {
    var rows := SelectedEvents(es, week);
    map d | d in week :: DayMapOf(rows, d)
  }

  /** What the loop of `get_events_for_week` promises about the dictionary it builds. */
  ghost predicate IsWeekMap(m: Schedule.WeekMap, es: seq<EventRow>, week: seq<Date>) {
    var rows := SelectedEvents(es, week);
    && (forall d :: d in m <==> d in week)
    && (forall d, s :: d in m ==> (s in m[d] <==> Schedule.Latest(rows, d, s).Some?))
    && (forall d, s :: d in m && s in m[d] ==> m[d][s] == Schedule.Latest(rows, d, s).value)
  }

  /** The loop builds exactly `WeekMapOf`. */
  lemma WeekMapIs(m: Schedule.WeekMap, es: seq<EventRow>, week: seq<Date>)
    requires IsWeekMap(m, es, week)
    ensures m == WeekMapOf(es, week)
  {
    var w := WeekMapOf(es, week);
    var rows := SelectedEvents(es, week);
    forall d | d in m
      ensures m[d] == w[d]
    {
      var day := DayMapOf(rows, d);
      assert w[d] == day;
      assert forall s :: s in m[d] <==> s in day;
    }
  }

  /** A date of the week has slot `s` in the dictionary exactly when some event is there. */
  lemma InWeekMap(es: seq<EventRow>, week: seq<Date>, d: Date, s: string)
    requires d in week
    ensures d in WeekMapOf(es, week)
    ensures s in WeekMapOf(es, week)[d] <==> HasEventAt(es, d, s)
  {
    var rows := SelectedEvents(es, week);
    if HasEventAt(es, d, s) {
      var i :| 0 <= i < |es| && es[i].date == d && es[i].slot == s;
      assert es[i] in rows;
    }
    if s in WeekMapOf(es, week)[d] {
      var e := Schedule.Latest(rows, d, s).value;
      assert e in es;
      var i :| 0 <= i < |es| && es[i] == e;
    }
  }

  /** Every event the dictionary holds is a row of the table, under its own date and slot. */
  lemma WeekMapRowInTable(es: seq<EventRow>, week: seq<Date>, d: Date, s: string)
    requires d in WeekMapOf(es, week) && s in WeekMapOf(es, week)[d]
    ensures var e := WeekMapOf(es, week)[d][s];
      e in es && e.date == d && e.slot == s
  {
    var rows := SelectedEvents(es, week);
    assert WeekMapOf(es, week)[d] == DayMapOf(rows, d);
  }

  // The day step

  /** The button of date `d` in `participate_handler`: shown when it has a morning or evening event. */
  function DayButton(m: Schedule.WeekMap, d: Date): seq<Button> {
    if d in m && (Morning in m[d] || Evening in m[d])
    then [Button(RuDateString(Legacy, d), MakeToken("chooseday", IsoDate.FormatIso(d)))]
    else []
  }

  function DayButtons(m: Schedule.WeekMap, ws: seq<Date>): (bs: seq<Button>)
    ensures |bs| <= |ws|
    decreases |ws|
  {
    if ws == [] then [] else DayButtons(m, ws[..|ws| - 1]) + DayButton(m, ws[|ws| - 1])
  }

  /** The loop of `participate_handler` over `week_dates()`. */
  method DayKeyboard(m: Schedule.WeekMap, week: seq<Date>) returns (kb: seq<Button>)
    requires forall d :: d in week ==> d in m
    ensures kb == DayButtons(m, week)
  {
    kb := [];
    for i := 0 to |week|
      invariant kb == DayButtons(m, week[..i])
    {
      DayButtonsStep(m, week, i);
      var d := week[i];
      if Morning in m[d] || Evening in m[d] {
        kb := kb + [Button(RuDateString(Legacy, d), MakeToken("chooseday", IsoDate.FormatIso(d)))];
      }
    }
    assert week[..|week|] == week;
  }

  lemma DayButtonsStep(m: Schedule.WeekMap, week: seq<Date>, i: int)
    requires 0 <= i < |week|
    ensures DayButtons(m, week[..i + 1]) == DayButtons(m, week[..i]) + DayButton(m, week[i])
  {
    assert week[..i + 1][..i] == week[..i];
  }

  lemma {:induction false} DayButtonsAll(m: Schedule.WeekMap, ws: seq<Date>)
    requires forall k :: 0 <= k < |ws| ==> ws[k] in m && Morning in m[ws[k]]
    ensures |DayButtons(m, ws)| == |ws|
    decreases |ws|
  {
    if ws != [] {
      var init := ws[..|ws| - 1];
      assert forall k :: 0 <= k < |init| ==> init[k] == ws[k];
      DayButtonsAll(m, init);
    }
  }

  /** When the week was empty and has been filled, every one of its days is offered. */
  lemma FilledWeekOffersEveryDay(v: Variant, week: seq<Date>, oldEvents: seq<EventRow>, oldRoles: seq<RoleRow>,
                                 events: seq<EventRow>, roles: seq<RoleRow>)
    requires WeekFilled(v, week, oldEvents, oldRoles, events, roles, true) && |EventsOn(oldEvents, week)| == 0
    ensures |DayButtons(WeekMapOf(events, week), week)| == |week|
  {
    var m := WeekMapOf(events, week);
    forall k | 0 <= k < |week|
      ensures week[k] in m && Morning in m[week[k]]
    {
      FilledWeekCovered(v, week, oldEvents, oldRoles, events, roles, week[k], Morning);
      InWeekMap(events, week, week[k], Morning);
    }
    DayButtonsAll(m, week);
  }

  /**
    The rest of `participate_handler` once the week is filled: read the week's dictionary
    and offer the days that have a morning or an evening event; with none the conversation
    ends.
  */
  method OfferDays(ud: UserData, es: seq<EventRow>, week: seq<Date>) returns (step: Step)
    modifies ud
    ensures var m := WeekMapOf(es, week);
      var days := DayButtons(m, week);
      && (days == [] ==> step == Done(NoEventsThisWeek) && ud.weekMap == old(ud.weekMap))
      && (days != [] ==> step == Next(ChoosingDay, days) && ud.weekMap == Some(m))
    ensures ud.schedule == old(ud.schedule) && ud.chosenIso == old(ud.chosenIso) && ud.chosenDate == old(ud.chosenDate)
    ensures ud.chosenEventId == old(ud.chosenEventId) && ud.adminEventId == old(ud.adminEventId)
  {
    var schedule, keyboard := WeekDays(es, week);
    if keyboard == [] {
      return Done(NoEventsThisWeek);
    }
    ud.weekMap := Some(schedule);
    step := Next(ChoosingDay, keyboard);
  }

  /** `get_events_for_week()` and the day buttons built from it. */
  method WeekDays(es: seq<EventRow>, week: seq<Date>) returns (schedule: Schedule.WeekMap, keyboard: seq<Button>)
    ensures schedule == WeekMapOf(es, week) && keyboard == DayButtons(schedule, week)
  {
    schedule := Schedule.GetEventsForWeek(es, week);
    WeekMapIs(schedule, es, week);
    keyboard := DayKeyboard(schedule, week);
  }

  /**
    `participate_handler`: fill the week, then offer its days. In the split revision a
    failed fill raises before anything is read.
  */
  method Participate(db: Database, ud: UserData, today: Date, v: Variant) returns (step: Step)
    requires WindowFits(MondayOf(today)) && db.Valid()
    modifies db, ud
    ensures db.Valid() && db.parts == old(db.parts) && db.log == old(db.log)
    ensures WeekFilled(v, MondayWeek(today), old(db.events), old(db.roles), db.events, db.roles, step != Raised)
    ensures step == Raised ==> ud.weekMap == old(ud.weekMap)
    ensures step != Raised ==>
      var m := WeekMapOf(db.events, MondayWeek(today));
      var days := DayButtons(m, MondayWeek(today));
      && (days == [] ==> step == Done(NoEventsThisWeek) && ud.weekMap == old(ud.weekMap))
      && (days != [] ==> step == Next(ChoosingDay, days) && ud.weekMap == Some(m))
    ensures ud.schedule == old(ud.schedule) && ud.chosenIso == old(ud.chosenIso) && ud.chosenDate == old(ud.chosenDate)
    ensures ud.chosenEventId == old(ud.chosenEventId) && ud.adminEventId == old(ud.adminEventId)
  {
    var ok := EnsureWeek(db, today, v);
    if !ok {
      return Raised;
    }
    step := OfferDays(ud, db.events, MondayWeek(today));
  }

  /** With the monolith the week is never left empty, so an empty week offers all seven days. */
  lemma EmptyWeekOffersEveryDay(week: seq<Date>, oldEvents: seq<EventRow>, oldRoles: seq<RoleRow>,
                                events: seq<EventRow>, roles: seq<RoleRow>)
    requires WeekFilled(Monolith, week, oldEvents, oldRoles, events, roles, true) && |EventsOn(oldEvents, week)| == 0
    requires |week| == 7
    ensures |DayButtons(WeekMapOf(events, week), week)| == 7
  {
    FilledWeekOffersEveryDay(Monolith, week, oldEvents, oldRoles, events, roles);
  }

  // The event step

  /** `_, day_iso = data.split("|")` and `datetime.fromisoformat(day_iso).date()`. */
  function DayOf(data: string): Option<Date> {
    match SplitToken(data)
    case None => None
    case Some(p) => IsoDate.ParseIso(p.1)
  }

  /** The button of one slot of the chosen day, carrying `chooseevent|<id>`. */
  function SlotButton(day: map<string, EventRow>, slot: string): seq<Button> {
    if slot in day
    then [Button(SlotLabel(slot, day[slot].time), MakeToken("chooseevent", DecimalString(day[slot].id)))]
    else []
  }

  /** The morning button, then the evening button. */
  function SlotButtons(day: map<string, EventRow>): (bs: seq<Button>)
    ensures bs == [] <==> Morning !in day && Evening !in day
  {
    SlotButton(day, Morning) + SlotButton(day, Evening)
  }

  /** The buttons after the first `k` of the two slots. */
  function SlotsDone(day: map<string, EventRow>, k: int): seq<Button> {
    if k <= 0 then [] else if k == 1 then SlotButton(day, Morning) else SlotButtons(day)
  }

  /** The loop of `choose_day` over `["morning", "evening"]`. */
  method EventKeyboard(day: map<string, EventRow>) returns (kb: seq<Button>)
    ensures kb == SlotButtons(day)
  {
    kb := [];
    for k := 0 to 2
      invariant kb == SlotsDone(day, k)
    {
      var slot := if k == 0 then Morning else Evening;
      if slot in day {
        var event := day[slot];
        kb := kb + [Button(SlotLabel(slot, event.time), MakeToken("chooseevent", DecimalString(event.id)))];
      }
    }
  }

  /**
    `choose_day`: parse the date, store it, and offer the events of that day in the stored
    dictionary. A date the dictionary does not hold raises `KeyError`.
  */
  method ChooseDay(ud: UserData, data: string) returns (step: Step)
    modifies ud
    ensures DayOf(data).None? ==> step == Raised && ud.chosenDate == old(ud.chosenDate)
    ensures DayOf(data).Some? ==>
      var d := DayOf(data).value;
      && ud.chosenDate == Some(d)
      && (old(ud.weekMap).None? || d !in old(ud.weekMap).value ==> step == Raised)
      && (old(ud.weekMap).Some? && d in old(ud.weekMap).value ==>
            var bs := SlotButtons(old(ud.weekMap).value[d]);
            step == if bs == [] then Done(NoEventsOnDay) else Next(ChoosingEvent, bs))
    ensures ud.weekMap == old(ud.weekMap) && ud.schedule == old(ud.schedule) && ud.chosenIso == old(ud.chosenIso)
    ensures ud.chosenEventId == old(ud.chosenEventId) && ud.adminEventId == old(ud.adminEventId)
  {
    var d := DayOf(data);
    if d.None? {
      return Raised;
    }
    ud.chosenDate := d;
    if ud.weekMap.None? || d.value !in ud.weekMap.value {
      return Raised;
    }
    var keyboard := EventKeyboard(ud.weekMap.value[d.value]);
    if keyboard == [] {
      return Done(NoEventsOnDay);
    }
    step := Next(ChoosingEvent, keyboard);
  }

  lemma {:induction false} DayButtonFrom(m: Schedule.WeekMap, ws: seq<Date>, b: Button) returns (d: Date)
    requires b in DayButtons(m, ws)
    ensures d in ws && b in DayButton(m, d)
    decreases |ws|
  {
    var init := ws[..|ws| - 1];
    if b in DayButtons(m, init) {
      d := DayButtonFrom(m, init, b);
    } else {
      d := ws[|ws| - 1];
    }
  }

  /** The button of the date at position `k` is among the day buttons of every longer prefix. */
  lemma {:induction false} DayButtonInPrefix(m: Schedule.WeekMap, ws: seq<Date>, k: int, n: int, b: Button)
    requires 0 <= k < n <= |ws| && b in DayButton(m, ws[k])
    ensures b in DayButtons(m, ws[..n])
    decreases n
  {
    DayButtonsStep(m, ws, n - 1);
    var pre := DayButtons(m, ws[..n - 1]);
    var block := DayButton(m, ws[n - 1]);
    assert DayButtons(m, ws[..n]) == pre + block;
    if k < n - 1 {
      DayButtonInPrefix(m, ws, k, n - 1, b);
      assert b in pre;
    } else {
      assert b in block;
    }
  }

  /** A date of `ws` with a morning or an evening event in the dictionary has its button among the day buttons. */
  lemma DayButtonOffered(m: Schedule.WeekMap, ws: seq<Date>, d: Date)
    requires d in ws && d in m && (Morning in m[d] || Evening in m[d])
    ensures DayButton(m, d) != [] && DayButton(m, d)[0] in DayButtons(m, ws)
  {
    var k :| 0 <= k < |ws| && ws[k] == d;
    DayButtonInPrefix(m, ws, k, |ws|, DayButton(m, d)[0]);
    assert ws[..|ws|] == ws;
  }

  /**
    A date gets a button carrying `chooseday|<iso>` exactly when it is a date of the week
    and the dictionary holds a morning or an evening event for it.
  */
  lemma DayButtonsIff(m: Schedule.WeekMap, ws: seq<Date>, d: Date)
    ensures (exists b :: b in DayButtons(m, ws) && b.data == MakeToken("chooseday", IsoDate.FormatIso(d)))
        <==> d in ws && d in m && (Morning in m[d] || Evening in m[d])
  {
    if d in ws && d in m && (Morning in m[d] || Evening in m[d]) {
      var b := DayTokenOffered(m, ws, d);
    }
    if b :| b in DayButtons(m, ws) && b.data == MakeToken("chooseday", IsoDate.FormatIso(d)) {
      OfferedTokenDay(m, ws, d, b);
    }
  }

  lemma DayTokenOffered(m: Schedule.WeekMap, ws: seq<Date>, d: Date) returns (b: Button)
    requires d in ws && d in m && (Morning in m[d] || Evening in m[d])
    ensures b in DayButtons(m, ws) && b.data == MakeToken("chooseday", IsoDate.FormatIso(d))
  {
    DayButtonOffered(m, ws, d);
    b := DayButton(m, d)[0];
  }

  lemma OfferedTokenDay(m: Schedule.WeekMap, ws: seq<Date>, d: Date, b: Button)
    requires b in DayButtons(m, ws) && b.data == MakeToken("chooseday", IsoDate.FormatIso(d))
    ensures d in ws && d in m && (Morning in m[d] || Evening in m[d])
  {
    var d' := DayButtonFrom(m, ws, b);
    TagsHaveNoBar();
    DateTokenInjective("chooseday", d, d');
  }

  /** Every date offered by the day step leads, with the stored dictionary, to at least one event. */
  lemma DayButtonLeadsToEvents(m: Schedule.WeekMap, ws: seq<Date>, b: Button)
    requires b in DayButtons(m, ws)
    ensures DayOf(b.data).Some? && DayOf(b.data).value in ws && DayOf(b.data).value in m
    ensures SlotButtons(m[DayOf(b.data).value]) != []
  {
    var d := DayButtonFrom(m, ws, b);
    TagsHaveNoBar();
    DateTokenRoundTrip("chooseday", d);
    assert DayOf(b.data) == Some(d);
  }

  // The role step

  /** One button per role of the event, in order, each carrying `chooserole|<id>`; no cancel button. */
  function RoleButtons(roles: seq<RoleRow>): (bs: seq<Button>)
    ensures |bs| == |roles|
    ensures forall i :: 0 <= i < |roles| ==>
      bs[i].text == roles[i].name && ParticipationFlow.TokenId(bs[i].data) == Some(roles[i].id)
  {
    TagsHaveNoBar();
    ParticipationFlow.IdTokensParse("chooserole");
    seq(|roles|, i requires 0 <= i < |roles| => Button(roles[i].name, MakeToken("chooserole", DecimalString(roles[i].id))))
  }

  /**
    `choose_event`: store the event id and offer the event's roles; an unknown event or one
    without roles ends the conversation. A token that is not `tag|<integer>` raises before
    anything is stored.
  */
  method ChooseEvent(db: Database, ud: UserData, data: string) returns (step: Step)
    modifies ud
    ensures ParticipationFlow.TokenId(data).None? ==> step == Raised && ud.chosenEventId == old(ud.chosenEventId)
    ensures ParticipationFlow.TokenId(data).Some? ==>
      var id := ParticipationFlow.TokenId(data).value;
      && ud.chosenEventId == Some(id)
      && match FindEvent(db.events, id)
         case None => step == Done(EventNotFound)
         case Some(row) =>
           var roles := EventRoles(db.roles, row.roleIds);
           step == if roles == [] then Done(NoRoles) else Next(ChoosingRole, RoleButtons(roles))
    ensures ud.weekMap == old(ud.weekMap) && ud.chosenDate == old(ud.chosenDate) && ud.schedule == old(ud.schedule)
    ensures ud.chosenIso == old(ud.chosenIso) && ud.adminEventId == old(ud.adminEventId)
  {
    var eventId := ParticipationFlow.TokenId(data);
    if eventId.None? {
      return Raised;
    }
    ud.chosenEventId := eventId;
    var event := FindEvent(db.events, eventId.value);
    if event.None? {
      return Done(EventNotFound);
    }
    var roles := EventRoles(db.roles, event.value.roleIds);
    if roles == [] {
      return Done(NoRoles);
    }
    step := Next(ChoosingRole, RoleButtons(roles));
  }

  /**
    The checks of the older `choose_role` in their order: the split of the data, the
    username, `context.user_data["chosen_event_id"]` (`KeyError` when absent) and
    `int(role_id)`. There is no cancel token.
  */
  function ReadSignup(data: string, username: Option<string>, chosen: Option<int>): (r: ParticipationFlow.SignupRequest)
    ensures r.Write? <==> ParticipationFlow.Named(username) && chosen.Some? && ParticipationFlow.TokenId(data).Some?
    ensures r.Write? ==> r == ParticipationFlow.Write(username.value, chosen.value, ParticipationFlow.TokenId(data).value)
    ensures r.Stop? ==> r.step == if SplitToken(data).Some? && !ParticipationFlow.Named(username) then Done(NeedUsername) else Raised
  {
    match SplitToken(data)
    case None => ParticipationFlow.Stop(Raised)
    case Some(p) =>
      if !ParticipationFlow.Named(username) then ParticipationFlow.Stop(Done(NeedUsername))
      else if chosen.None? then ParticipationFlow.Stop(Raised)
      else match ParseInt(p.1)
        case None => ParticipationFlow.Stop(Raised)
        case Some(roleId) => ParticipationFlow.Write(username.value, chosen.value, roleId)
  }

  /**
    `f"{ru_date_string(event.date)}, {SLOT_RU[event.slot]} ({event.time})"`: when the event
    takes place; `None` where `SLOT_RU` raises `KeyError`.
  */
  function When(e: EventRow): (w: Option<string>)
    ensures w.Some? <==> e.slot in SlotRu
  {
    match StrictSlotLabel(e.slot, e.time)
    case None => None
    case Some(text) => Some(RuDateString(Legacy, e.date) + ", " + text)
  }

  /** `query(Event).filter_by(id=id).first()` then `When`; `None` also where the event is gone. */
  function WhenOf(es: seq<EventRow>, id: int): (w: Option<string>)
    ensures w.Some? <==> FindEvent(es, id).Some? && FindEvent(es, id).value.slot in SlotRu
  {
    match FindEvent(es, id)
    case None => None
    case Some(e) => When(e)
  }

  /** `role.name if role else ...` for `query(Role).filter_by(id=id).first()`. */
  function RoleNameById(rs: seq<RoleRow>, id: int): (name: Option<string>)
    ensures name.Some? <==> exists i :: 0 <= i < |rs| && rs[i].id == id
  {
    match RoleById(rs, id)
    case None => None
    case Some(r) => Some(r.name)
  }

  /**
    The older `choose_role`: unless the same user already holds that role in that event,
    insert one participation, then read the event and the role back and notify the
    administrators. The role is looked up in the whole table, not among the event's roles.
    When the event is gone, or its slot has no Russian name, the handler raises after the
    insert and nothing is sent.
  */
  method ChooseRole(db: Database, ud: UserData, data: string, username: Option<string>) returns (step: Step)
    requires db.Valid()
    modifies db
    ensures db.Valid() && db.events == old(db.events) && db.roles == old(db.roles)
    ensures match ReadSignup(data, username, ud.chosenEventId)
      case Stop(s) => step == s && db.parts == old(db.parts) && db.log == old(db.log)
      case Write(u, eventId, roleId) =>
        && HasTriple(db.parts, eventId, roleId, u)
        && (HasTriple(old(db.parts), eventId, roleId, u) ==>
              step == Done(AlreadySignedUp) && db.parts == old(db.parts) && db.log == old(db.log))
        && (!HasTriple(old(db.parts), eventId, roleId, u) ==>
              && db.parts == old(db.parts) + [PartRow(NextId(PartIds(old(db.parts))), u, eventId, roleId)]
              && match WhenOf(db.events, eventId)
                 case None => step == Raised && db.log == old(db.log)
                 case Some(w) =>
                   step == Done(SignedUp)
                   && db.log == old(db.log) + [SignupNotice(Some(u), w, RoleText(RoleNameById(db.roles, roleId)))])
    ensures NoDuplicateTriples(old(db.parts)) ==> NoDuplicateTriples(db.parts)
  {
    var parts := SplitToken(data);
    if parts.None? {
      return Raised;
    }
    if !ParticipationFlow.Named(username) {
      return Done(NeedUsername);
    }
    var u := username.value;
    if ud.chosenEventId.None? {
      return Raised;
    }
    var eventId := ud.chosenEventId.value;
    var roleId := ParseInt(parts.value.1);
    if roleId.None? {
      return Raised;
    }
    var inserted := db.Signup(u, eventId, roleId.value);
    if !inserted {
      return Done(AlreadySignedUp);
    }
    var when := WhenOf(db.events, eventId);
    if when.None? {
      return Raised;
    }
    var role := RoleNameById(db.roles, roleId.value);
    db.Notify(SignupNotice(Some(u), when.value, RoleText(role)));
    step := Done(SignedUp);
  }

  /** Every role the event step offers routes to the role step, which reads its id back. */
  lemma RoleButtonsSignUp(roles: seq<RoleRow>, i: int, username: string, chosen: int)
    requires 0 <= i < |roles| && username != ""
    ensures LegacyParticipationRoute(ChoosingRole, Press(RoleButtons(roles)[i].data)) == Some(ChooseRoleH)
    ensures ReadSignup(RoleButtons(roles)[i].data, Some(username), Some(chosen)) == ParticipationFlow.Write(username, chosen, roles[i].id)
  {
    var data := RoleButtons(roles)[i].data;
    assert data == MakeToken("chooserole", DecimalString(roles[i].id));
    RoleTokenRoutes(roles[i].id);
  }

  /** A `chooserole|<id>` token is routed to the role step. */
  lemma RoleTokenRoutes(id: int)
    ensures LegacyParticipationRoute(ChoosingRole, Press(MakeToken("chooserole", DecimalString(id)))) == Some(ChooseRoleH)
  {
    var data := MakeToken("chooserole", DecimalString(id));
    assert data[..|"chooserole"|] == "chooserole";
    assert Matches(LegacyParticipationStates(ChoosingRole)[0].matcher, Press(data));
  }

  // The schedule

  /**
    `schedule_handler`: fill the week and send `build_schedule_text` of its dictionary. In
    the split revision a failed fill raises and nothing is sent.
  */
  method ScheduleHandler(db: Database, today: Date, v: Variant) returns (reply: Option<string>)
    requires WindowFits(MondayOf(today)) && db.Valid()
    modifies db
    ensures db.Valid() && db.parts == old(db.parts) && db.log == old(db.log)
    ensures WeekFilled(v, MondayWeek(today), old(db.events), old(db.roles), db.events, db.roles, reply.Some?)
    ensures reply.Some? ==>
      var week := MondayWeek(today);
      reply.value == Schedule.LegacyScheduleText(WeekMapOf(db.events, week), db.roles, db.parts, week)
  {
    var ok := EnsureWeek(db, today, v);
    if !ok {
      return None;
    }
    var week := MondayWeek(today);
    var schedule := Schedule.GetEventsForWeek(db.events, week);
    WeekMapIs(schedule, db.events, week);
    var text := Schedule.LegacyBuildScheduleText(schedule, db.roles, db.parts, week);
    reply := Some(text);
  }
}
