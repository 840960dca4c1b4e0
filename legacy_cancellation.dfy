/**
  The cancellation conversation of bot.py and bot_app/handlers.py: the menu lists all the
  user's participations whatever their date, "cancel all" deletes every row with the user's
  name, and a single cancel announces the participation under its owner's name. Texts use
  `SLOT_RU[...]`, so a participation in a slot with no Russian name makes the handler raise.
*/
module LegacyCancellation {
  import opened Wrappers
  import opened Calendar
  import opened Defaults
  import opened Numerals
  import opened Tokens
  import opened Db
  import opened Store
  import opened Render
  import opened Dialogue
  import opened ParticipationFlow
  import CancellationFlow
  import LegacyFlow

  /** The values of `xs` when all are present: a loop that raises at the first missing one. */
  function AllSome<T>(xs: seq<Option<T>>): (r: Option<seq<T>>)
    ensures r.Some? <==> forall i :: 0 <= i < |xs| ==> xs[i].Some?
    ensures r.Some? ==> |r.value| == |xs| && forall i :: 0 <= i < |xs| ==> xs[i] == Some(r.value[i])
    decreases |xs|
  {
    if xs == [] then Some([])
    else
      var init := xs[..|xs| - 1];
      assert forall i :: 0 <= i < |init| ==> init[i] == xs[i];
      match AllSome(init)
      case None => None
      case Some(vs) =>
        match xs[|xs| - 1]
        case None => None
        case Some(x) => Some(vs + [x])
  }

  lemma AllSomeStep<T>(xs: seq<Option<T>>, i: int, acc: seq<T>)
    requires 0 <= i < |xs| && AllSome(xs[..i]) == Some(acc) && xs[i].Some?
    ensures AllSome(xs[..i + 1]) == Some(acc + [xs[i].value])
  {
    assert xs[..i + 1][..i] == xs[..i];
  }

  /** One more element of a mapped prefix whose values are all present. */
  lemma AllSomeMapStep<T, U>(f: T -> Option<U>, s: seq<T>, i: int, acc: seq<U>)
    requires 0 <= i < |s| && AllSome(MapSeq(f, s[..i])) == Some(acc) && f(s[i]).Some?
    ensures AllSome(MapSeq(f, s[..i + 1])) == Some(acc + [f(s[i]).value])
  {
    MapSeqStep(f, s, i);
    var xs := MapSeq(f, s[..i + 1]);
    assert xs[..i] == MapSeq(f, s[..i]);
    AllSomeStep(xs, i, acc);
    assert xs[..i + 1] == xs;
  }

  // The menu

  /** The menu button of one participation; `None` where `SLOT_RU` raises. */
  function CancelButtonOf(rs: seq<RoleRow>, j: Joined): (b: Option<Button>)
    ensures b.Some? <==> j.event.slot in SlotRu
  {
    match LegacyFlow.When(j.event)
    case None => None
    case Some(w) =>
      Some(Button(w + " — " + RoleText(CancellationFlow.PartRoleName(rs, j.part)), MakeToken("cancelpart", DecimalString(j.part.id))))
  }

  /** The buttons of the participations in order, or `None` when one of them raises. */
  function CancelButtons(rs: seq<RoleRow>, js: seq<Joined>): (bs: Option<seq<Button>>)
    ensures bs.Some? <==> forall i :: 0 <= i < |js| ==> js[i].event.slot in SlotRu
    ensures bs.Some? ==> |bs.value| == |js| && forall i :: 0 <= i < |js| ==> CancelButtonOf(rs, js[i]) == Some(bs.value[i])
  {
    var xs := MapSeq(j => CancelButtonOf(rs, j), js);
    assert forall i :: 0 <= i < |js| ==> xs[i] == CancelButtonOf(rs, js[i]);
    AllSome(xs)
  }

  lemma CancelButtonsStep(rs: seq<RoleRow>, js: seq<Joined>, i: int, acc: seq<Button>)
    requires 0 <= i < |js| && CancelButtons(rs, js[..i]) == Some(acc) && CancelButtonOf(rs, js[i]).Some?
    ensures CancelButtons(rs, js[..i + 1]) == Some(acc + [CancelButtonOf(rs, js[i]).value])
  {
    AllSomeMapStep(j => CancelButtonOf(rs, j), js, i, acc);
  }

  /** The loop of the older `show_cancel_participation_menu`, which raises at a slot `SLOT_RU` lacks. */
  method CancelKeyboard(rs: seq<RoleRow>, js: seq<Joined>) returns (kb: Option<seq<Button>>)
    ensures kb == CancelButtons(rs, js)
  {
    var bs: seq<Button> := [];
    for i := 0 to |js|
      invariant CancelButtons(rs, js[..i]) == Some(bs)
    {
      var b := CancelButtonOf(rs, js[i]);
      if b.None? {
        return None;
      }
      CancelButtonsStep(rs, js, i, bs);
      bs := bs + [b.value];
    }
    assert js[..|js|] == js;
    kb := Some(bs);
  }

  /**
    The older `show_cancel_participation_menu`: without a username the conversation ends;
    otherwise every participation of the user whose event exists, by date and slot, as a
    button, then "cancel all" and no "Отмена".
  */
  method ShowCancelMenu(db: Database, username: Option<string>) returns (step: Step)
    ensures !Named(username) ==> step == Done(NeedUsername)
    ensures Named(username) ==>
      var js := UserPartsByDate(db.parts, db.events, username.value, None);
      && (js == [] ==> step == Done(NothingToCancel))
      && (js != [] ==>
            match CancelButtons(db.roles, js)
            case None => step == Raised
            case Some(bs) => step == Next(ChoosingCancel, bs + [CancellationFlow.CancelAllButton]))
  {
    if !Named(username) {
      return Done(NeedUsername);
    }
    var parts := UserPartsByDate(db.parts, db.events, username.value, None);
    if parts == [] {
      return Done(NothingToCancel);
    }
    var keyboard := CancelKeyboard(db.roles, parts);
    if keyboard.None? {
      return Raised;
    }
    step := Next(ChoosingCancel, keyboard.value + [CancellationFlow.CancelAllButton]);
  }

  /**
    Every participation button of the menu is routed to `cancel_participation` and names,
    through its token, exactly the participation it shows.
  */
  lemma MenuButtonCancelsThatRecord(ps: seq<PartRow>, es: seq<EventRow>, rs: seq<RoleRow>, u: string, bs: seq<Button>, i: int)
    requires UniquePartIds(ps)
    requires CancelButtons(rs, UserPartsByDate(ps, es, u, None)) == Some(bs) && 0 <= i < |bs|
    ensures var j := UserPartsByDate(ps, es, u, None)[i];
      && LegacyCancellationRoute(ChoosingCancel, Press(bs[i].data)) == Some(CancelPartH)
      && bs[i].data != "cancelall"
      && TokenId(bs[i].data) == Some(j.part.id)
      && CancellationFlow.PartById(ps, j.part.id) == Some(j.part)
  {
    var js := UserPartsByDate(ps, es, u, None);
    var j := js[i];
    assert j in js;
    assert CancelButtonOf(rs, j) == Some(bs[i]);
    assert bs[i].data == MakeToken("cancelpart", DecimalString(j.part.id));
    CancelTokenRoutes(j.part.id);
    CancellationFlow.PartByIdUnique(ps, j.part);
  }

  /** A `cancelpart|<id>` token is routed to `cancel_participation`, which reads `id` back from it. */
  lemma CancelTokenRoutes(id: int)
    ensures var data := MakeToken("cancelpart", DecimalString(id));
      && LegacyCancellationRoute(ChoosingCancel, Press(data)) == Some(CancelPartH)
      && data != "cancelall"
      && TokenId(data) == Some(id)
  {
    var data := MakeToken("cancelpart", DecimalString(id));
    assert data[..|"cancelpart|"|] == "cancelpart|";
    assert |data| > |"cancelall"|;
    assert Matches(DataPrefix("cancelpart|"), Press(data));
    assert Matches(LegacyCancellationStates(ChoosingCancel)[0].matcher, Press(data));
    TagsHaveNoBar();
    IdTokenRoundTrip("cancelpart", id);
  }

  // Cancel all

  /**
    The rows the older cancel-all announces: every participation of the user whose event
    exists, whatever its date, in table order. A missing username (`IS NULL`) selects none.
  */
  function CancelAllRows(ps: seq<PartRow>, es: seq<EventRow>, username: Option<string>): (js: seq<Joined>)
    ensures forall j :: j in js <==> username.Some? && j in JoinEvents(ps, es) && j.part.username == username.value
  {
    if username.None? then [] else UserParts(JoinEvents(ps, es), username.value, None)
  }

  /** The notification of one cancelled participation, naming the acting user; `None` where `SLOT_RU` raises. */
  function CancelNoticeOf(rs: seq<RoleRow>, username: Option<string>, j: Joined): (n: Option<string>)
    ensures n.Some? <==> j.event.slot in SlotRu
  {
    match LegacyFlow.When(j.event)
    case None => None
    case Some(w) => Some(CancelNotice(username, w, RoleText(CancellationFlow.PartRoleName(rs, j.part))))
  }

  function CancelNotices(rs: seq<RoleRow>, username: Option<string>, js: seq<Joined>): (msgs: Option<seq<string>>)
    ensures msgs.Some? <==> forall i :: 0 <= i < |js| ==> js[i].event.slot in SlotRu
    ensures msgs.Some? ==> |msgs.value| == |js| && forall i :: 0 <= i < |js| ==> CancelNoticeOf(rs, username, js[i]) == Some(msgs.value[i])
  {
    var xs := MapSeq(j => CancelNoticeOf(rs, username, j), js);
    assert forall i :: 0 <= i < |js| ==> xs[i] == CancelNoticeOf(rs, username, js[i]);
    AllSome(xs)
  }

  lemma CancelNoticesStep(rs: seq<RoleRow>, username: Option<string>, js: seq<Joined>, i: int, acc: seq<string>)
    requires 0 <= i < |js| && CancelNotices(rs, username, js[..i]) == Some(acc) && CancelNoticeOf(rs, username, js[i]).Some?
    ensures CancelNotices(rs, username, js[..i + 1]) == Some(acc + [CancelNoticeOf(rs, username, js[i]).value])
  {
    AllSomeMapStep(j => CancelNoticeOf(rs, username, j), js, i, acc);
  }

  /** The first loop of the older cancel-all: one message per selected participation. */
  method CancelAllMessages(rs: seq<RoleRow>, username: Option<string>, js: seq<Joined>) returns (msgs: Option<seq<string>>)
    ensures msgs == CancelNotices(rs, username, js)
  {
    var acc: seq<string> := [];
    for i := 0 to |js|
      invariant CancelNotices(rs, username, js[..i]) == Some(acc)
    {
      var n := CancelNoticeOf(rs, username, js[i]);
      if n.None? {
        return None;
      }
      CancelNoticesStep(rs, username, js, i, acc);
      acc := acc + [n.value];
    }
    assert js[..|js|] == js;
    msgs := Some(acc);
  }

  /** The table after `query(Participation).filter_by(username=username).delete()`. */
  function Remaining(ps: seq<PartRow>, username: Option<string>): (r: seq<PartRow>)
    ensures forall p :: p in r <==> p in ps && Some(p.username) != username
  {
    if username.None? then ps else WithoutUser(ps, username.value)
  }

  /** The outcome of the older cancel-all, given the tables and the log before it. */
  ghost predicate CancelledAll(ps: seq<PartRow>, es: seq<EventRow>, rs: seq<RoleRow>, log: seq<string>, username: Option<string>,
                               parts: seq<PartRow>, log': seq<string>, step: Step) {
    match CancelNotices(rs, username, CancelAllRows(ps, es, username))
    case None => step == Raised && parts == ps && log' == log
    case Some(msgs) => step == Done(AllCancelled) && parts == Remaining(ps, username) && log' == log + msgs
  }

  /**
    The "cancelall" branch of the older `cancel_participation`: build the messages, delete
    every row with the user's name, then send the messages.
  */
  method CancelAll(db: Database, username: Option<string>) returns (step: Step)
    requires db.Valid()
    modifies db
    ensures db.Valid() && db.events == old(db.events) && db.roles == old(db.roles)
    ensures CancelledAll(old(db.parts), old(db.events), old(db.roles), old(db.log), username, db.parts, db.log, step)
  {
    var js := CancelAllRows(db.parts, db.events, username);
    var msgs := CancelAllMessages(db.roles, username, js);
    if msgs.None? {
      return Raised;
    }
    if username.Some? {
      db.DeleteByUsername(username.value);
    }
    CancellationFlow.NotifyAll(db, msgs.value);
    step := Done(AllCancelled);
  }

  /**
    The older cancel-all deletes a participation dated before today, which the layered
    revision's cancel-all keeps.
  */
  lemma PastRecordOnlyLegacyRemoves(ps: seq<PartRow>, es: seq<EventRow>, today: Date, p: PartRow)
    requires UniquePartIds(ps) && p in ps
    requires FindEvent(es, p.eventId).Some? && !NotAfter(today, FindEvent(es, p.eventId).value.date)
    ensures p !in Remaining(ps, Some(p.username))
    ensures p in WithoutIds(ps, CancellationFlow.JoinedIds(CancellationFlow.CancelAllRows(ps, es, Some(p.username), today)))
  {
    CancellationFlow.CancelAllRemovesExactlyUpcoming(ps, es, Some(p.username), today, p);
  }

  /** A participation whose event is gone is deleted by the older cancel-all but never announced. */
  lemma OrphanDeletedUnannounced(ps: seq<PartRow>, es: seq<EventRow>, p: PartRow)
    requires p in ps && FindEvent(es, p.eventId).None?
    ensures p !in Remaining(ps, Some(p.username))
    ensures forall j :: j in CancelAllRows(ps, es, Some(p.username)) ==> j.part != p
  {
    forall j | j in CancelAllRows(ps, es, Some(p.username))
      ensures j.part != p
    {
      assert FindEvent(es, j.part.eventId) == Some(j.event);
    }
  }

  // Cancel one

  /** The outcome of the older single cancel, given the tables and the log before it. */
  ghost predicate CancelledOne(ps: seq<PartRow>, es: seq<EventRow>, rs: seq<RoleRow>, log: seq<string>, data: string,
                               parts: seq<PartRow>, log': seq<string>, step: Step) {
    match TokenId(data)
    case None => step == Raised && parts == ps && log' == log
    case Some(id) =>
      match CancellationFlow.PartById(ps, id)
      case None => step == Done(RecordNotFound) && parts == ps && log' == log
      case Some(p) =>
        match LegacyFlow.WhenOf(es, p.eventId)
        case None => step == Raised && parts == ps && log' == log
        case Some(w) =>
          && step == Done(OneCancelled)
          && parts == WithoutIds(ps, [id])
          && log' == log + [CancelNotice(Some(p.username), w, RoleText(CancellationFlow.PartRoleName(rs, p)))]
  }

  /**
    The single cancel of the older `cancel_participation`: the participation with the id is
    deleted whoever it belongs to, and the notification names its owner. An unknown id ends
    with no change; a gone event or a slot `SLOT_RU` lacks makes it raise before the delete.
  */
  method CancelOne(db: Database, data: string) returns (step: Step)
    requires db.Valid()
    modifies db
    ensures db.Valid() && db.events == old(db.events) && db.roles == old(db.roles)
    ensures CancelledOne(old(db.parts), old(db.events), old(db.roles), old(db.log), data, db.parts, db.log, step)
  {
    var partId := TokenId(data);
    if partId.None? {
      return Raised;
    }
    var part := CancellationFlow.PartById(db.parts, partId.value);
    if part.None? {
      return Done(RecordNotFound);
    }
    var when := LegacyFlow.WhenOf(db.events, part.value.eventId);
    if when.None? {
      return Raised;
    }
    var text := CancelNotice(Some(part.value.username), when.value, RoleText(CancellationFlow.PartRoleName(db.roles, part.value)));
    db.DeleteParticipation(partId.value);
    db.Notify(text);
    step := Done(OneCancelled);
  }

  /** The older `cancel_participation`: cancel-all on "cancelall", a single cancel otherwise. */
  method CancelParticipation(db: Database, data: string, username: Option<string>) returns (step: Step)
    requires db.Valid()
    modifies db
    ensures db.Valid() && db.events == old(db.events) && db.roles == old(db.roles)
    ensures data == "cancelall" ==>
      CancelledAll(old(db.parts), old(db.events), old(db.roles), old(db.log), username, db.parts, db.log, step)
    ensures data != "cancelall" ==>
      CancelledOne(old(db.parts), old(db.events), old(db.roles), old(db.log), data, db.parts, db.log, step)
  {
    if data == "cancelall" {
      step := CancelAll(db, username);
    } else {
      step := CancelOne(db, data);
    }
  }

  /** A single cancel of someone else's participation is announced under the owner's name. */
  lemma SingleCancelNamesOwner(ps: seq<PartRow>, es: seq<EventRow>, rs: seq<RoleRow>, log: seq<string>, p: PartRow,
                               parts: seq<PartRow>, log': seq<string>, step: Step)
    requires UniquePartIds(ps) && p in ps
    requires CancelledOne(ps, es, rs, log, MakeToken("cancelpart", DecimalString(p.id)), parts, log', step)
    requires step == Done(OneCancelled)
    ensures p !in parts && |log'| == |log| + 1
    ensures log'[|log|] == CancelNotice(Some(p.username), LegacyFlow.WhenOf(es, p.eventId).value, RoleText(CancellationFlow.PartRoleName(rs, p)))
  {
    TagsHaveNoBar();
    IdTokenRoundTrip("cancelpart", p.id);
    CancellationFlow.PartByIdUnique(ps, p);
  }
}
