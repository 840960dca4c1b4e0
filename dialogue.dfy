/**
  The conversation machinery shared by the flows: the states of the three conversations,
  inline buttons, what a handler answers, the per-user `context.user_data`, and the
  routing of python-telegram-bot's `ConversationHandler`: in the current state the state's
  handlers are tried in order, then the fallbacks; an update that none of them matches is
  ignored, and a handler that raises leaves the conversation in its state.
*/
module Dialogue {
  import opened Wrappers
  import opened Calendar
  import opened Db
  import Schedule

  /** The states of the participation, cancellation and administration conversations. */
  datatype State = ChoosingDay | ChoosingEvent | ChoosingRole | ChoosingCancel
                 | ManageEventSelect | EditEventChoice | SetEventTime

  /** `InlineKeyboardButton(text, callback_data=data)`. */
  datatype Button = Button(text: string, data: string)

  /** The final answer of a conversation step that ends it (`ConversationHandler.END`). */
  datatype Reply =
    | Cancelled          // "Действие отменено." (layered) or "Отменено." (older revisions)
    | NoEventsThisWeek   // "Нет событий на этой неделе. Пожалуйста, ..."
    | NoEventsOnDay      // "Нет событий на этот день."
    | EventNotFound      // "Событие не найдено."
    | NoRoles            // "В этом событии нет ролей."
    | NeedUsername       // "У вас должен быть установлен username в Telegram ..."
    | AlreadySignedUp    // "Вы уже записаны на эту роль в этом событии."
    | SignedUp           // "Вы записаны на событие. Спасибо! ..."
    | NothingToCancel    // "У вас нет активных записей для отмены."
    | AllCancelled       // "Все ваши участия отменены."
    | OneCancelled       // "Ваше участие отменено."
    | RecordNotFound     // "Запись не найдена."
    | EditCancelled      // "Редактирование отменено."
    | TimeChanged        // "Время события успешно изменено."
    | NotAdmin           // "Вы не администратор."

  /**
    What a handler returns: the next state with the buttons offered there, the end of the
    conversation with its reply, or an exception, after which the state does not change.
  */
  datatype Step = Next(state: State, buttons: seq<Button>) | Done(reply: Reply) | Raised

  /** An update: a press on an inline button, or a text message. */
  datatype Update = Press(data: string) | Say(text: string)

  /** The handlers a conversation can route an update to. */
  datatype Handler = ChooseDayH | ChooseEventH | ChooseRoleH | CancelH | CancelPartH
                   | ManageSelectH | EditChoiceH | SetTimeH

  const CancelButton: Button := Button("Отмена", "cancel")
  const CancelWord: string := "Отмена"

  /** `context.user_data`: each key is absent (`None`) until a handler stores it. */
  class UserData {
    /** "schedule" in the layered revision: ISO date -> slot -> event DTO. */
    var schedule: Option<map<string, map<string, EventDto>>>
    /** "chosen_date" in the layered revision: the ISO string from the button. */
    var chosenIso: Option<string>
    /** "schedule" in the older revisions: date -> slot -> event row. */
    var weekMap: Option<Schedule.WeekMap>
    /** "chosen_date" in the older revisions: the parsed date. */
    var chosenDate: Option<Date>
    var chosenEventId: Option<int>
    var adminEventId: Option<int>

    constructor ()
      ensures schedule.None? && chosenIso.None? && weekMap.None? && chosenDate.None?
      ensures chosenEventId.None? && adminEventId.None?
    {
      schedule := None;
      chosenIso := None;
      weekMap := None;
      chosenDate := None;
      chosenEventId := None;
      adminEventId := None;
    }
  }

  // Patterns

  predicate StartsWith(s: string, prefix: string) {
    |prefix| <= |s| && s[..|prefix|] == prefix
  }

  /** `re.match("^w$", s)`: Python's `$` also matches just before a final newline. */
  predicate Whole(s: string, w: string) {
    s == w || s == w + "\n"
  }

  /** `filters.COMMAND`: a message that starts with a bot command (a `/`). */
  predicate IsCommand(text: string) {
    |text| > 0 && text[0] == '/'
  }

  /** `CommandHandler("cancel")`. */
  predicate IsCancelCommand(text: string) {
    text == "/cancel" || StartsWith(text, "/cancel ")
  }

  // Dispatch

  /**
    What one handler of a conversation reacts to: a `CallbackQueryHandler` pattern, which
    `re.match` anchors at the start of the button data, or a `MessageHandler` filter or a
    `CommandHandler` on the text of a message.
  */
  datatype Matcher =
    | DataPrefix(prefix: string)              // pattern r"^prefix"
    | DataWhole(word: string)                 // pattern "^word$"
    | Either(left: Matcher, right: Matcher)   // an alternation `(a|b)` in the pattern
    | TextNotCommand                          // filters.TEXT & ~filters.COMMAND
    | TextWhole(word: string)                 // filters.Regex("^word$")
    | CancelCommand                           // CommandHandler("cancel")
    | Except(base: Matcher, excluded: Matcher) // base & ~excluded

  predicate Matches(m: Matcher, u: Update) {
    match m
    case DataPrefix(p) => u.Press? && StartsWith(u.data, p)
    case DataWhole(w) => u.Press? && Whole(u.data, w)
    case Either(a, b) => Matches(a, u) || Matches(b, u)
    case TextNotCommand => u.Say? && !IsCommand(u.text)
    case TextWhole(w) => u.Say? && Whole(u.text, w)
    case CancelCommand => u.Say? && IsCancelCommand(u.text)
    case Except(a, b) => Matches(a, u) && !Matches(b, u)
  }

  /** A matcher on the data of a button press. */
  predicate OnData(m: Matcher) {
    match m
    case DataPrefix(_) => true
    case DataWhole(_) => true
    case Either(a, b) => OnData(a) && OnData(b)
    case _ => false
  }

  /** A matcher on button data never accepts a text message. */
  lemma {:induction false} DataIgnoresText(m: Matcher, u: Update)
    requires OnData(m) && u.Say?
    ensures !Matches(m, u)
  {
    if m.Either? {
      DataIgnoresText(m.left, u);
      DataIgnoresText(m.right, u);
    }
  }

  /** One entry of a handler list: what it reacts to and the callback it runs. */
  datatype Entry = Entry(matcher: Matcher, handler: Handler)

  /**
    A handler list is tried in order and the first entry whose check accepts the update
    wins: the result is that entry's handler, and `None` exactly when no entry accepts it.
  */
  function FirstMatch(es: seq<Entry>, u: Update): (h: Option<Handler>)
    ensures h.None? <==> forall i :: 0 <= i < |es| ==> !Matches(es[i].matcher, u)
    ensures forall i :: 0 <= i < |es| && Matches(es[i].matcher, u) && (forall j :: 0 <= j < i ==> !Matches(es[j].matcher, u)) ==>
              h == Some(es[i].handler)
    decreases |es|
  {
    if es == [] then None
    else if Matches(es[0].matcher, u) then Some(es[0].handler)
    else
      var h := FirstMatch(es[1..], u);
      assert forall i :: 1 <= i < |es| ==> es[1..][i - 1] == es[i];
      h
  }

  /** No entry of a list of button handlers accepts a text message. */
  lemma DataListIgnoresText(es: seq<Entry>, u: Update)
    requires forall i :: 0 <= i < |es| ==> OnData(es[i].matcher)
    requires u.Say?
    ensures FirstMatch(es, u).None?
  {
    forall i | 0 <= i < |es|
      ensures !Matches(es[i].matcher, u)
    {
      DataIgnoresText(es[i].matcher, u);
    }
  }

  /**
    `ConversationHandler.check_update`: the handlers of the current state are tried first,
    then the fallbacks; `None` means the conversation ignores the update.
  */
  function Dispatch(stateHandlers: seq<Entry>, fallbacks: seq<Entry>, u: Update): Option<Handler> {
    match FirstMatch(stateHandlers, u)
    case Some(h) => Some(h)
    case None => FirstMatch(fallbacks, u)
  }

  /** `fallbacks=[MessageHandler(filters.Regex("^Отмена$"), cancel_handler)]` of the layered conversations. */
  const CancelWordFallback: seq<Entry> := [Entry(TextWhole(CancelWord), CancelH)]

  /** `fallbacks=[CommandHandler("cancel", cancel)]` of the older conversations. */
  const CancelCommandFallback: seq<Entry> := [Entry(CancelCommand, CancelH)]

  /** A press on the "cancel" button, in the three states where it is offered. */
  const CancelPress: Entry := Entry(DataWhole("cancel"), CancelH)

  // Routing of the layered revision (flows/*.py)

  /** The `states` of `participate_conv` in flows/participation.py. */
  function ParticipationStates(state: State): seq<Entry> {
    match state
    case ChoosingDay => [Entry(DataPrefix("chooseday"), ChooseDayH), CancelPress]
    case ChoosingEvent => [Entry(DataPrefix("chooseevent"), ChooseEventH), CancelPress]
    case ChoosingRole => [Entry(DataPrefix("chooserole"), ChooseRoleH), CancelPress]
    case _ => []
  }

  /** `participate_conv` of flows/participation.py. */
  function ParticipationRoute(state: State, u: Update): (h: Option<Handler>)
    ensures u.Say? && Whole(u.text, CancelWord) ==> h == Some(CancelH)
    ensures u == Press("cancel") && state in {ChoosingDay, ChoosingEvent, ChoosingRole} ==> h == Some(CancelH)
    ensures u.Say? && !Whole(u.text, CancelWord) ==> h.None?
  {
    var es := ParticipationStates(state);
    if u.Say? then
      DataListIgnoresText(es, u);
      Dispatch(es, CancelWordFallback, u)
    else
      assert u == Press("cancel") && |es| == 2 ==> !Matches(es[0].matcher, u) && Matches(es[1].matcher, u);
      Dispatch(es, CancelWordFallback, u)
  }

  /** The `states` of `cancel_conv` in flows/cancellation.py. */
  function CancellationStates(state: State): seq<Entry> {
    if state == ChoosingCancel
    then [Entry(Either(DataPrefix("cancelpart|"), DataWhole("cancelall")), CancelPartH), CancelPress]
    else []
  }

  /** `cancel_conv` of flows/cancellation.py. */
  function CancellationRoute(state: State, u: Update): (h: Option<Handler>)
    ensures u.Say? && Whole(u.text, CancelWord) ==> h == Some(CancelH)
    ensures state == ChoosingCancel && u == Press("cancel") ==> h == Some(CancelH)
    ensures state == ChoosingCancel && u == Press("cancelall") ==> h == Some(CancelPartH)
  {
    var es := CancellationStates(state);
    if u.Say? then
      DataListIgnoresText(es, u);
      Dispatch(es, CancelWordFallback, u)
    else
      assert u == Press("cancel") && |es| == 2 ==> !Matches(es[0].matcher, u) && Matches(es[1].matcher, u);
      Dispatch(es, CancelWordFallback, u)
  }

  /** The `states` of `admin_conv` in flows/admin.py. */
  function AdminStates(state: State): seq<Entry> {
    match state
    case ManageEventSelect => [Entry(DataPrefix("manageevent|"), ManageSelectH), CancelPress]
    case EditEventChoice => [Entry(Either(DataWhole("edittime"), DataWhole("cancel")), EditChoiceH)]
    case SetEventTime => [Entry(TextNotCommand, SetTimeH)]
    case _ => []
  }

  /** `admin_conv` of flows/admin.py, as written. */
  function AdminRoute(state: State, u: Update): Option<Handler> {
    Dispatch(AdminStates(state), CancelWordFallback, u)
  }

  /**
    As written, the cancel word typed while a new time is asked for passes the state's
    `TEXT & ~COMMAND` filter, which is tried before the fallback, so it reaches
    `admin_set_event_time` and is stored as the time; in every other state it cancels.
  */
  lemma CancelWordBecomesTime()
    ensures AdminRoute(SetEventTime, Say(CancelWord)) == Some(SetTimeH)
    ensures forall s :: s != SetEventTime ==> AdminRoute(s, Say(CancelWord)) == Some(CancelH)
  {
    assert !IsCommand(CancelWord);
    assert Matches(AdminStates(SetEventTime)[0].matcher, Say(CancelWord));
    forall s | s != SetEventTime
      ensures AdminRoute(s, Say(CancelWord)) == Some(CancelH)
    {
      assert Matches(CancelWordFallback[0].matcher, Say(CancelWord));
    }
  }

  /** The states of `admin_conv` with the time prompt's filter leaving the cancel word to the fallback. */
  function AdminStatesFixed(state: State): seq<Entry> {
    if state == SetEventTime then [Entry(Except(TextNotCommand, TextWhole(CancelWord)), SetTimeH)]
    else AdminStates(state)
  }

  /** `admin_conv` with the filter `TEXT & ~COMMAND & ~Regex("^Отмена$")` in SET_EVENT_TIME. */
  function AdminRouteFixed(state: State, u: Update): (h: Option<Handler>)
    ensures u.Say? && Whole(u.text, CancelWord) ==> h == Some(CancelH)
  {
    var es := AdminStatesFixed(state);
    if u.Say? && state != SetEventTime then
      DataListIgnoresText(es, u);
      Dispatch(es, CancelWordFallback, u)
    else
      Dispatch(es, CancelWordFallback, u)
  }

  /**
    The corrected conversation routes differently from the written one exactly for the
    cancel word in SET_EVENT_TIME: that message now cancels, and every other update in
    every state goes where it went before.
  */
  lemma AdminRouteFixedDiffers(state: State, u: Update)
    ensures AdminRouteFixed(state, u) != AdminRoute(state, u) <==> state == SetEventTime && u.Say? && Whole(u.text, CancelWord)
  {
    if state == SetEventTime && u.Say? && Whole(u.text, CancelWord) {
      assert !IsCommand(u.text);
      assert Matches(AdminStates(state)[0].matcher, u);
    }
  }

  // Routing of the monolith (bot.py) and the split revision (bot_app/bot_app.py)

  /** The `states` of the older `participate_conv`: no cancel buttons. */
  function LegacyParticipationStates(state: State): seq<Entry> {
    match state
    case ChoosingDay => [Entry(DataPrefix("chooseday"), ChooseDayH)]
    case ChoosingEvent => [Entry(DataPrefix("chooseevent"), ChooseEventH)]
    case ChoosingRole => [Entry(DataPrefix("chooserole"), ChooseRoleH)]
    case _ => []
  }

  /** The older `participate_conv`: only the `/cancel` command cancels. */
  function LegacyParticipationRoute(state: State, u: Update): (h: Option<Handler>)
    ensures u.Press? && h.Some? ==> h.value != CancelH
  {
    Dispatch(LegacyParticipationStates(state), CancelCommandFallback, u)
  }

  /** The `states` of the older `cancel_conv`: no cancel button. */
  function LegacyCancellationStates(state: State): seq<Entry> {
    if state == ChoosingCancel
    then [Entry(Either(DataPrefix("cancelpart|"), DataWhole("cancelall")), CancelPartH)]
    else []
  }

  /** The older `cancel_conv`, with `fallbacks=[]`. */
  function LegacyCancellationRoute(state: State, u: Update): (h: Option<Handler>)
    ensures u.Say? ==> h.None?
  {
    var es := LegacyCancellationStates(state);
    if u.Say? then
      DataListIgnoresText(es, u);
      Dispatch(es, [], u)
    else
      Dispatch(es, [], u)
  }

  /** The `states` of the older `admin_conv`: the edit step answers "edittime" or "canceladmin". */
  function LegacyAdminStates(state: State): seq<Entry> {
    match state
    case ManageEventSelect => [Entry(DataPrefix("manageevent|"), ManageSelectH)]
    case EditEventChoice => [Entry(Either(DataWhole("edittime"), DataWhole("canceladmin")), EditChoiceH)]
    case SetEventTime => [Entry(TextNotCommand, SetTimeH)]
    case _ => []
  }

  /** The older `admin_conv`. */
  function LegacyAdminRoute(state: State, u: Update): Option<Handler> {
    Dispatch(LegacyAdminStates(state), CancelCommandFallback, u)
  }

  /** In the older revisions `/cancel` is a command, so the time prompt never swallows it. */
  lemma LegacyCancelCommandAlwaysCancels(state: State)
    ensures LegacyAdminRoute(state, Say("/cancel")) == Some(CancelH)
    ensures LegacyParticipationRoute(state, Say("/cancel")) == Some(CancelH)
  {
  }
}
