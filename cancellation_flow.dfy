/**
  The cancellation conversation of flows/cancellation.py: the user sees their participations
  dated today or later and cancels one of them, or all of them at once; the administrators
  are notified of every cancelled participation.
*/
module CancellationFlow {
  import opened Wrappers
  import opened Calendar
  import opened Numerals
  import opened Tokens
  import opened Db
  import opened Store
  import opened Render
  import opened Dialogue
  import opened ParticipationFlow

  const CancelAllButton: Button := Button("❌ Отменить все", "cancelall")

  /** `p.role.name if p.role else None`: the name of the participation's role, if it has one. */
  function PartRoleName(rs: seq<RoleRow>, p: PartRow): Option<string> {
    match LoadPart(rs, p).role
    case Some(r) => Some(r.name)
    case None => None
  }

  /** `query(Participation).filter_by(id=id).first()`: the first participation with the id. */
  function PartById(ps: seq<PartRow>, id: int): (r: Option<PartRow>)
    ensures r.Some? ==> r.value in ps && r.value.id == id
    ensures r.None? <==> forall i :: 0 <= i < |ps| ==> ps[i].id != id
  {
    if ps == [] then None
    else if ps[0].id == id then Some(ps[0])
    else PartById(ps[1..], id)
  }

  /** With unique ids, the participation found by id is the only one with that id. */
  lemma PartByIdUnique(ps: seq<PartRow>, p: PartRow)
    requires UniquePartIds(ps) && p in ps
    ensures PartById(ps, p.id) == Some(p)
  {
    var k :| 0 <= k < |ps| && ps[k] == p;
    var q := PartById(ps, p.id).value;
    var m :| 0 <= m < |ps| && ps[m] == q;
    assert m == k;
  }

  // The menu

  /** The menu button of one participation: when and in which role, carrying `cancelpart|<id>`. */
  function CancelButtonOf(rs: seq<RoleRow>, j: Joined): Button {
    Button(EventWhen(j.event.date, j.event.time) + " — " + RoleText(PartRoleName(rs, j.part)),
           MakeToken("cancelpart", DecimalString(j.part.id)))
  }

  function CancelButtons(rs: seq<RoleRow>, js: seq<Joined>): (bs: seq<Button>)
    ensures |bs| == |js| && forall i :: 0 <= i < |js| ==> bs[i] == CancelButtonOf(rs, js[i])
  {
    MapSeq(j => CancelButtonOf(rs, j), js)
  }

  /** The loop of `show_cancel_participation_menu` that appends one button per participation. */
  method CancelKeyboard(rs: seq<RoleRow>, js: seq<Joined>) returns (kb: seq<Button>)
    ensures kb == CancelButtons(rs, js)
  {
    kb := [];
    for i := 0 to |js|
      invariant kb == MapSeq(j => CancelButtonOf(rs, j), js[..i])
    {
      MapSeqStep(j => CancelButtonOf(rs, j), js, i);
      kb := kb + [CancelButtonOf(rs, js[i])];
    }
    assert js[..|js|] == js;
  }

  /**
    `show_cancel_participation_menu`: without a username the conversation ends; otherwise
    the user's participations dated today or later, by date and slot, each as a button,
    then "cancel all" and "Отмена"; with none the conversation ends.
  */
  method ShowCancelMenu(db: Database, username: Option<string>, today: Date) returns (step: Step)
    ensures !Named(username) ==> step == Done(NeedUsername)
    ensures Named(username) ==>
      var js := UserPartsByDate(db.parts, db.events, username.value, Some(today));
      step == if js == [] then Done(NothingToCancel) else Next(ChoosingCancel, CancelButtons(db.roles, js) + [CancelAllButton, CancelButton])
  {
    if !Named(username) {
      return Done(NeedUsername);
    }
    var parts := UserPartsByDate(db.parts, db.events, username.value, Some(today));
    if parts == [] {
      return Done(NothingToCancel);
    }
    var keyboard := CancelKeyboard(db.roles, parts);
    step := Next(ChoosingCancel, keyboard + [CancelAllButton, CancelButton]);
  }

  /**
    Every participation button of the menu names, through its token, exactly the
    participation it shows, so pressing it cancels that one.
  */
  lemma MenuButtonCancelsThatRecord(ps: seq<PartRow>, es: seq<EventRow>, rs: seq<RoleRow>, u: string, today: Date, i: int)
    requires UniquePartIds(ps)
    requires 0 <= i < |UserPartsByDate(ps, es, u, Some(today))|
    ensures var j := UserPartsByDate(ps, es, u, Some(today))[i];
      var b := CancelButtons(rs, UserPartsByDate(ps, es, u, Some(today)))[i];
      && b.data != "cancel" && b.data != "cancelall"
      && TokenId(b.data) == Some(j.part.id)
      && PartById(ps, j.part.id) == Some(j.part)
  {
    var js := UserPartsByDate(ps, es, u, Some(today));
    var j := js[i];
    assert j in js;
    TagsHaveNoBar();
    IdTokenRoundTrip("cancelpart", j.part.id);
    PartByIdUnique(ps, j.part);
  }

  // Cancel all

  /**
    The rows cancel-all selects: the user's participations whose event is dated today or
    later, in table order. A missing username (`username == None`, SQL `IS NULL`) selects none.
  */
  function CancelAllRows(ps: seq<PartRow>, es: seq<EventRow>, username: Option<string>, today: Date): (js: seq<Joined>)
    ensures forall j :: j in js <==> username.Some? && j in JoinEvents(ps, es) && j.part.username == username.value && NotAfter(today, j.event.date)
  {
    if username.None? then [] else UserParts(JoinEvents(ps, es), username.value, Some(today))
  }

  function JoinedIds(js: seq<Joined>): (ids: seq<int>)
    ensures |ids| == |js|
  {
    MapSeq((j: Joined) => j.part.id, js)
  }

  /** The notification of one cancelled participation, naming the acting user. */
  function CancelNoticeOf(rs: seq<RoleRow>, username: Option<string>, j: Joined): string {
    CancelNotice(username, EventWhen(j.event.date, j.event.time), RoleText(PartRoleName(rs, j.part)))
  }

  function CancelNotices(rs: seq<RoleRow>, username: Option<string>, js: seq<Joined>): (msgs: seq<string>)
    ensures |msgs| == |js|
  {
    MapSeq(j => CancelNoticeOf(rs, username, j), js)
  }

  /** Deleting ids one at a time is deleting them all at once. */
  lemma {:induction false} WithoutIdsAppend(ps: seq<PartRow>, ids: seq<int>, x: int)
    ensures WithoutIds(WithoutIds(ps, ids), [x]) == WithoutIds(ps, ids + [x])
  {
    if ps != [] {
      WithoutIdsAppend(ps[1..], ids, x);
      var rest := WithoutIds(ps[1..], ids);
      var head: seq<PartRow> := if ps[0].id in ids then [] else [ps[0]];
      assert WithoutIds(ps, ids) == head + rest;
      WithoutIdsConcat(head, rest, [x]);
    }
  }

  lemma WithoutNoIds(ps: seq<PartRow>)
    ensures WithoutIds(ps, []) == ps
  {
  }

  lemma WithoutIdsConcat(a: seq<PartRow>, b: seq<PartRow>, ids: seq<int>)
    requires |a| <= 1
    ensures WithoutIds(a + b, ids) == WithoutIds(a, ids) + WithoutIds(b, ids)
  {
    if |a| == 1 {
      assert (a + b)[1..] == b;
      assert (a + b)[0] == a[0];
      assert a[1..] == [];
    } else {
      assert a + b == b;
    }
  }

  /**
    Cancel-all removes exactly the user's participations whose event is dated today or
    later: earlier participations and those of other users stay.
  */
  lemma CancelAllRemovesExactlyUpcoming(ps: seq<PartRow>, es: seq<EventRow>, username: Option<string>, today: Date, p: PartRow)
    requires UniquePartIds(ps) && p in ps
    ensures p !in WithoutIds(ps, JoinedIds(CancelAllRows(ps, es, username, today)))
        <==> username == Some(p.username) && FindEvent(es, p.eventId).Some? && NotAfter(today, FindEvent(es, p.eventId).value.date)
  {
    var js := CancelAllRows(ps, es, username, today);
    var ids := JoinedIds(js);
    if p.id in ids {
      var k :| 0 <= k < |ids| && ids[k] == p.id;
      assert js[k] in js;
      var q := js[k].part;
      PartByIdUnique(ps, p);
      PartByIdUnique(ps, q);
    }
    if username == Some(p.username) && FindEvent(es, p.eventId).Some? && NotAfter(today, FindEvent(es, p.eventId).value.date) {
      var j := Joined(p, FindEvent(es, p.eventId).value);
      assert j in JoinEvents(ps, es);
      assert j in js;
      var k :| 0 <= k < |js| && js[k] == j;
      assert ids[k] == p.id;
    }
  }

  /** The first loop of cancel-all: one message per selected participation. */
  method CancelAllMessages(rs: seq<RoleRow>, username: Option<string>, js: seq<Joined>) returns (msgs: seq<string>)
    ensures msgs == CancelNotices(rs, username, js)
  {
    msgs := [];
    for i := 0 to |js|
      invariant msgs == MapSeq(j => CancelNoticeOf(rs, username, j), js[..i])
    {
      MapSeqStep(j => CancelNoticeOf(rs, username, j), js, i);
      msgs := msgs + [CancelNoticeOf(rs, username, js[i])];
    }
    assert js[..|js|] == js;
  }

  /** The second loop of cancel-all: `session.delete(p)` for each selected participation. */
  method DeleteAll(db: Database, js: seq<Joined>)
    requires db.Valid()
    modifies db
    ensures db.Valid()
    ensures db.parts == WithoutIds(old(db.parts), JoinedIds(js))
    ensures db.events == old(db.events) && db.roles == old(db.roles) && db.log == old(db.log)
  {
    var ids := JoinedIds(js);
    WithoutNoIds(db.parts);
    for k := 0 to |js|
      invariant db.Valid()
      invariant db.parts == WithoutIds(old(db.parts), ids[..k])
      invariant db.events == old(db.events) && db.roles == old(db.roles) && db.log == old(db.log)
    {
      WithoutIdsAppend(old(db.parts), ids[..k], ids[k]);
      TakeOneMore(ids, k);
      db.DeleteParticipation(js[k].part.id);
    }
    assert ids[..|js|] == ids;
  }

  /** The last loop of cancel-all: each message goes to the administrators, after the commit. */
  method NotifyAll(db: Database, msgs: seq<string>)
    modifies db
    ensures db.log == old(db.log) + msgs
    ensures db.events == old(db.events) && db.roles == old(db.roles) && db.parts == old(db.parts)
  {
    for k := 0 to |msgs|
      invariant db.log == old(db.log) + msgs[..k]
      invariant db.events == old(db.events) && db.roles == old(db.roles) && db.parts == old(db.parts)
    {
      assert msgs[..k + 1] == msgs[..k] + [msgs[k]];
      db.Notify(msgs[k]);
    }
    assert msgs[..|msgs|] == msgs;
  }

  /**
    The "cancelall" branch of `cancel_participation`: build the messages, delete the
    selected participations, then send one message per deleted participation.
  */
  method CancelAll(db: Database, username: Option<string>, today: Date) returns (step: Step)
    requires db.Valid()
    modifies db
    ensures db.Valid() && step == Done(AllCancelled)
    ensures var js := CancelAllRows(old(db.parts), old(db.events), username, today);
      && db.parts == WithoutIds(old(db.parts), JoinedIds(js))
      && db.log == old(db.log) + CancelNotices(old(db.roles), username, js)
    ensures db.events == old(db.events) && db.roles == old(db.roles)
  {
    var js := CancelAllRows(db.parts, db.events, username, today);
    var msgs := CancelAllMessages(db.roles, username, js);
    DeleteAll(db, js);
    NotifyAll(db, msgs);
    step := Done(AllCancelled);
  }

  /**
    The single cancel of `cancel_participation`: the participation with the id is deleted
    whoever it belongs to and whatever its date, and the notification names the acting user.
    An unknown id ends with no change; a participation whose event is gone makes the
    handler raise before anything is deleted.
  */
  method CancelOne(db: Database, data: string, username: Option<string>) returns (step: Step)
    requires db.Valid()
    modifies db
    ensures db.Valid() && db.events == old(db.events) && db.roles == old(db.roles)
    ensures match TokenId(data)
      case None => step == Raised && db.parts == old(db.parts) && db.log == old(db.log)
      case Some(id) =>
        match PartById(old(db.parts), id)
        case None => step == Done(RecordNotFound) && db.parts == old(db.parts) && db.log == old(db.log)
        case Some(p) =>
          match FindEvent(db.events, p.eventId)
          case None => step == Raised && db.parts == old(db.parts) && db.log == old(db.log)
          case Some(e) =>
            && step == Done(OneCancelled)
            && db.parts == WithoutIds(old(db.parts), [id])
            && db.log == old(db.log) + [CancelNoticeOf(db.roles, username, Joined(p, e))]
  {
    var partId := TokenId(data);
    if partId.None? {
      return Raised;
    }
    var part := PartById(db.parts, partId.value);
    if part.None? {
      return Done(RecordNotFound);
    }
    var event := FindEvent(db.events, part.value.eventId);
    if event.None? {
      return Raised;
    }
    var text := CancelNoticeOf(db.roles, username, Joined(part.value, event.value));
    db.DeleteParticipation(partId.value);
    db.Notify(text);
    step := Done(OneCancelled);
  }

  /** `cancel_participation`: "cancel" ends with no change, then cancel-all or a single cancel. */
  method CancelParticipation(db: Database, data: string, username: Option<string>, today: Date) returns (step: Step)
    requires db.Valid()
    modifies db
    ensures db.Valid() && db.events == old(db.events) && db.roles == old(db.roles)
    ensures data == "cancel" ==> step == Done(Cancelled) && db.parts == old(db.parts) && db.log == old(db.log)
    ensures data == "cancelall" ==>
      var js := CancelAllRows(old(db.parts), old(db.events), username, today);
      && step == Done(AllCancelled)
      && db.parts == WithoutIds(old(db.parts), JoinedIds(js))
      && db.log == old(db.log) + CancelNotices(old(db.roles), username, js)
    ensures data != "cancel" && data != "cancelall" && PartIdOf(data, old(db.parts)).None? ==>
      db.parts == old(db.parts) && db.log == old(db.log) && (step == Raised || step == Done(RecordNotFound))
    ensures data != "cancel" && data != "cancelall" && PartIdOf(data, old(db.parts)).Some? ==>
      var p := PartIdOf(data, old(db.parts)).value;
      (step == Done(OneCancelled) ==> db.parts == WithoutIds(old(db.parts), [p.id]) && |db.log| == |old(db.log)| + 1)
      && (step != Done(OneCancelled) ==> step == Raised && db.parts == old(db.parts) && db.log == old(db.log))
  {
    if data == "cancel" {
      return Done(Cancelled);
    }
    if data == "cancelall" {
      step := CancelAll(db, username, today);
    } else {
      step := CancelOne(db, data, username);
    }
  }

  /** The participation a `cancelpart|<id>` token names, if the id parses and is in the table. */
  function PartIdOf(data: string, ps: seq<PartRow>): (r: Option<PartRow>)
    ensures r.Some? ==> r.value in ps && Some(r.value.id) == TokenId(data)
  {
    match TokenId(data)
    case None => None
    case Some(id) => PartById(ps, id)
  }
}
