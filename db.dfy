/**
  The bot's database held in memory: the `events`, `roles`, `event_roles` and
  `participations` tables of db_setup.py, the records of db/dto.py, and the read queries
  of db/queries.py. Row ids follow SQLite's rowid rule: a new row gets one more than the
  largest id in its table.
*/
module Db {
  import opened Wrappers
  import opened Calendar
  import opened Defaults
  import opened Ordering
  import IsoDate

  /** A row of `roles`. */
  datatype RoleRow = RoleRow(id: int, name: string)

  /** A row of `events`, with the ids of its `event_roles` links in insertion order. */
  datatype EventRow = EventRow(id: int, date: Date, slot: string, name: string, time: string, roleIds: seq<int>)

  /** A row of `participations`. */
  datatype PartRow = PartRow(id: int, username: string, eventId: int, roleId: int)

  /** `RoleDTO` of db/dto.py. */
  datatype RoleDto = RoleDto(id: int, name: string)

  /** `ParticipationDTO`: `role` is `None` when the participation has no role. */
  datatype ParticipationDto = ParticipationDto(id: int, username: string, role: Option<RoleDto>)

  /** `EventDTO`: the date is carried as its ISO 8601 string. */
  datatype EventDto = EventDto(id: int, date: string, slot: string, name: string, time: string,
                               roles: seq<RoleDto>, participations: seq<ParticipationDto>)

  /** A participation as the ORM loads it, with its `role` relationship resolved. */
  datatype LoadedPart = LoadedPart(row: PartRow, role: Option<RoleRow>)

  /** An event as the ORM loads it, with its `roles` and `participations` relationships resolved. */
  datatype LoadedEvent = LoadedEvent(row: EventRow, roles: seq<RoleRow>, parts: seq<LoadedPart>)

  // Row ids

  function MaxOf(ids: seq<int>): (m: int)
    requires |ids| > 0
    ensures m in ids && forall i :: 0 <= i < |ids| ==> ids[i] <= m
  {
    if |ids| == 1 then ids[0]
    else
      var m := MaxOf(ids[..|ids| - 1]);
      assert ids == ids[..|ids| - 1] + [ids[|ids| - 1]];
      if m < ids[|ids| - 1] then ids[|ids| - 1] else m
  }

  /** The id SQLite gives the next row: 1 in an empty table, else one more than the largest id. */
  function NextId(ids: seq<int>): (n: int)
    ensures forall i :: 0 <= i < |ids| ==> ids[i] < n
    ensures n == 1 || n - 1 in ids
  {
    if ids == [] then 1 else MaxOf(ids) + 1
  }

  /** After a row with the next id is added, the next id is one higher. */
  lemma NextIdAfterAppend(ids: seq<int>)
    ensures NextId(ids + [NextId(ids)]) == NextId(ids) + 1
  {
    var ext := ids + [NextId(ids)];
    assert ext[..|ext| - 1] == ids;
  }

  /** Ids are reused: once the row with the largest id is deleted, the next row gets that id again. */
  lemma NextIdReusesDeletedMaximum(ids: seq<int>)
    requires |ids| > 0 && NextId(ids[..|ids| - 1]) <= ids[|ids| - 1]
    ensures NextId(ids) == ids[|ids| - 1] + 1
  {
    assert ids == ids[..|ids| - 1] + [ids[|ids| - 1]];
  }

  function RoleIds(rs: seq<RoleRow>): seq<int> {
    seq(|rs|, i requires 0 <= i < |rs| => rs[i].id)
  }

  function EventIds(es: seq<EventRow>): seq<int> {
    seq(|es|, i requires 0 <= i < |es| => es[i].id)
  }

  function PartIds(ps: seq<PartRow>): seq<int> {
    seq(|ps|, i requires 0 <= i < |ps| => ps[i].id)
  }

  predicate UniqueRoleIds(rs: seq<RoleRow>) {
    forall i, j :: 0 <= i < j < |rs| ==> rs[i].id != rs[j].id
  }

  predicate UniqueEventIds(es: seq<EventRow>) {
    forall i, j :: 0 <= i < j < |es| ==> es[i].id != es[j].id
  }

  predicate UniquePartIds(ps: seq<PartRow>) {
    forall i, j :: 0 <= i < j < |ps| ==> ps[i].id != ps[j].id
  }

  // Roles

  /** `query(Role).filter_by(id=id).first()`. */
  function RoleById(rs: seq<RoleRow>, id: int): (r: Option<RoleRow>)
    ensures r.Some? ==> r.value in rs && r.value.id == id
    ensures r.None? ==> forall i :: 0 <= i < |rs| ==> rs[i].id != id
  {
    if rs == [] then None
    else if rs[0].id == id then Some(rs[0])
    else RoleById(rs[1..], id)
  }

  /** `query(Role).filter_by(name=name).first()`: the first role of that name in table order. */
  function RoleByName(rs: seq<RoleRow>, name: string): (r: Option<RoleRow>)
    ensures r.Some? ==> r.value in rs && r.value.name == name
    ensures r.None? ==> forall i :: 0 <= i < |rs| ==> rs[i].name != name
  {
    if rs == [] then None
    else if rs[0].name == name then Some(rs[0])
    else RoleByName(rs[1..], name)
  }

  /** Adding rows at the end never changes which role a name that is already present resolves to. */
  lemma {:induction false} RoleByNameAppend(rs: seq<RoleRow>, more: seq<RoleRow>, name: string)
    ensures RoleByName(rs, name).Some? ==> RoleByName(rs + more, name) == RoleByName(rs, name)
    ensures RoleByName(rs, name).None? ==> RoleByName(rs + more, name) == RoleByName(more, name)
  {
    if rs == [] {
      assert rs + more == more;
    } else {
      assert (rs + more)[1..] == rs[1..] + more;
      RoleByNameAppend(rs[1..], more, name);
    }
  }

  /**
    The table after `get_or_create_role(name)`: unchanged when a role of that name exists,
    otherwise one new role with that name and a fresh id at the end.
  */
  function AddRoleIfMissing(rs: seq<RoleRow>, name: string): (r: seq<RoleRow>)
    ensures RoleByName(r, name).Some?
    ensures RoleByName(rs, name).Some? ==> r == rs
    ensures |rs| <= |r| <= |rs| + 1 && r[..|rs|] == rs
    ensures forall n :: RoleByName(rs, n).Some? ==> RoleByName(r, n) == RoleByName(rs, n)
    ensures UniqueRoleIds(rs) ==> UniqueRoleIds(r)
  {
    if RoleByName(rs, name).Some? then rs
    else
      var row := RoleRow(NextId(RoleIds(rs)), name);
      RoleByNameAppend(rs, [row], name);
      forall n | RoleByName(rs, n).Some?
        ensures RoleByName(rs + [row], n) == RoleByName(rs, n)
      {
        RoleByNameAppend(rs, [row], n);
      }
      assert forall i :: 0 <= i < |rs| ==> rs[i].id == RoleIds(rs)[i];
      rs + [row]
  }

  /** Every name of `names` resolves in `rs`. */
  predicate AllNamed(rs: seq<RoleRow>, names: seq<string>) {
    forall i :: 0 <= i < |names| ==> RoleByName(rs, names[i]).Some?
  }

  /** The table after `get_or_create_role` has been called for each name in turn. */
  function AddRolesIfMissing(rs: seq<RoleRow>, names: seq<string>): (r: seq<RoleRow>)
    ensures AllNamed(r, names)
    ensures AllNamed(rs, names) ==> r == rs
    ensures |rs| <= |r| <= |rs| + |names| && r[..|rs|] == rs
    ensures forall n :: RoleByName(rs, n).Some? ==> RoleByName(r, n) == RoleByName(rs, n)
    ensures UniqueRoleIds(rs) ==> UniqueRoleIds(r)
    decreases |names|
  {
    if names == [] then rs
    else
      var before := AddRolesIfMissing(rs, names[..|names| - 1]);
      AddRolesStep(rs, names, before);
      AddRoleIfMissing(before, names[|names| - 1])
  }

  /** One more `get_or_create_role` call keeps every fact `AddRolesIfMissing` promises. */
  lemma AddRolesStep(rs: seq<RoleRow>, names: seq<string>, before: seq<RoleRow>)
    requires names != []
    requires AllNamed(before, names[..|names| - 1])
    requires AllNamed(rs, names[..|names| - 1]) ==> before == rs
    requires |rs| <= |before| <= |rs| + |names| - 1 && before[..|rs|] == rs
    requires forall n :: RoleByName(rs, n).Some? ==> RoleByName(before, n) == RoleByName(rs, n)
    requires UniqueRoleIds(rs) ==> UniqueRoleIds(before)
    ensures var r := AddRoleIfMissing(before, names[|names| - 1]);
      && AllNamed(r, names)
      && (AllNamed(rs, names) ==> r == rs)
      && |rs| <= |r| <= |rs| + |names| && r[..|rs|] == rs
      && (forall n :: RoleByName(rs, n).Some? ==> RoleByName(r, n) == RoleByName(rs, n))
      && (UniqueRoleIds(rs) ==> UniqueRoleIds(r))
  {
    AddRolesStepNamed(rs, names, before);
    var r := AddRoleIfMissing(before, names[|names| - 1]);
    assert r[..|rs|] == r[..|before|][..|rs|];
  }

  /** The naming half of `AddRolesStep`: after the last call every name resolves, and nothing was added if all did before. */
  lemma AddRolesStepNamed(rs: seq<RoleRow>, names: seq<string>, before: seq<RoleRow>)
    requires names != []
    requires AllNamed(before, names[..|names| - 1])
    requires AllNamed(rs, names[..|names| - 1]) ==> before == rs
    ensures var r := AddRoleIfMissing(before, names[|names| - 1]);
      AllNamed(r, names) && (AllNamed(rs, names) ==> r == rs)
  {
    var r := AddRoleIfMissing(before, names[|names| - 1]);
    NamedAfterAdd(before, names, r);
    if AllNamed(rs, names) {
      NamedPrefix(rs, names);
    }
  }

  lemma NamedAfterAdd(before: seq<RoleRow>, names: seq<string>, r: seq<RoleRow>)
    requires names != [] && AllNamed(before, names[..|names| - 1])
    requires r == AddRoleIfMissing(before, names[|names| - 1])
    ensures AllNamed(r, names)
  {
    var init := names[..|names| - 1];
    forall i | 0 <= i < |names|
      ensures RoleByName(r, names[i]).Some?
    {
      if i < |init| {
        assert names[i] == init[i];
        assert RoleByName(before, init[i]).Some?;
      }
    }
  }

  lemma NamedPrefix(rs: seq<RoleRow>, names: seq<string>)
    requires names != [] && AllNamed(rs, names)
    ensures AllNamed(rs, names[..|names| - 1]) && RoleByName(rs, names[|names| - 1]).Some?
  {
    var init := names[..|names| - 1];
    assert forall i :: 0 <= i < |init| ==> init[i] == names[i];
  }

  /** Calling `get_or_create_role` again for the same names creates nothing more. */
  lemma AddRolesIdempotent(rs: seq<RoleRow>, names: seq<string>)
    ensures AddRolesIfMissing(AddRolesIfMissing(rs, names), names) == AddRolesIfMissing(rs, names)
  {
  }

  /** The ids the names resolve to, in the order of the names. */
  function RoleIdsFor(rs: seq<RoleRow>, names: seq<string>): (ids: seq<int>)
    requires AllNamed(rs, names)
    ensures |ids| == |names|
  {
    seq(|names|, i requires 0 <= i < |names| => RoleByName(rs, names[i]).value.id)
  }

  // Projections of db/queries.py

  /** `to_role_dto`. */
  function ToRoleDto(r: RoleRow): RoleDto {
    RoleDto(r.id, r.name)
  }

  /** `to_participation_dto`. */
  function ToParticipationDto(p: LoadedPart): (d: ParticipationDto)
    ensures d.id == p.row.id && d.username == p.row.username
    ensures d.role.None? <==> p.role.None?
    ensures p.role.Some? ==> d.role.value.id == p.role.value.id && d.role.value.name == p.role.value.name
  {
    ParticipationDto(p.row.id, p.row.username, if p.role.Some? then Some(ToRoleDto(p.role.value)) else None)
  }

  /** `to_event_dto`. */
  function ToEventDto(e: LoadedEvent): (d: EventDto)
    ensures d.id == e.row.id && d.slot == e.row.slot && d.name == e.row.name && d.time == e.row.time
    ensures IsoDate.ParseIso(d.date) == Some(e.row.date)
    ensures |d.roles| == |e.roles| && forall i :: 0 <= i < |d.roles| ==> d.roles[i].id == e.roles[i].id && d.roles[i].name == e.roles[i].name
    ensures |d.participations| == |e.parts| && forall i :: 0 <= i < |d.participations| ==> d.participations[i] == ToParticipationDto(e.parts[i])
  {
    IsoDate.ParseFormat(e.row.date);
    EventDto(e.row.id, IsoDate.FormatIso(e.row.date), e.row.slot, e.row.name, e.row.time,
             RoleDtos(e.roles), PartDtos(e.parts))
  }

  function RoleDtos(rs: seq<RoleRow>): (r: seq<RoleDto>)
    ensures |r| == |rs| && forall i :: 0 <= i < |r| ==> r[i].id == rs[i].id && r[i].name == rs[i].name
  {
    seq(|rs|, i requires 0 <= i < |rs| => ToRoleDto(rs[i]))
  }

  function PartDtos(ps: seq<LoadedPart>): (r: seq<ParticipationDto>)
    ensures |r| == |ps| && forall i :: 0 <= i < |r| ==> r[i] == ToParticipationDto(ps[i])
  {
    seq(|ps|, i requires 0 <= i < |ps| => ToParticipationDto(ps[i]))
  }

  // Loading relationships

  /** The event's `roles` relationship: its linked role rows, in link order. */
  function EventRoles(rs: seq<RoleRow>, ids: seq<int>): (r: seq<RoleRow>)
    ensures |r| <= |ids|
    ensures forall x :: x in r ==> x in rs
  {
    if ids == [] then []
    else
      var rest := EventRoles(rs, ids[1..]);
      match RoleById(rs, ids[0])
      case Some(role) => [role] + rest
      case None => rest
  }

  /** The participations of one event, in table order. */
  function PartsOfEvent(ps: seq<PartRow>, eventId: int): (r: seq<PartRow>)
    ensures forall p :: p in r <==> p in ps && p.eventId == eventId
  {
    if ps == [] then []
    else (if ps[0].eventId == eventId then [ps[0]] else []) + PartsOfEvent(ps[1..], eventId)
  }

  function LoadPart(rs: seq<RoleRow>, p: PartRow): LoadedPart {
    LoadedPart(p, RoleById(rs, p.roleId))
  }

  function LoadEvent(rs: seq<RoleRow>, ps: seq<PartRow>, e: EventRow): LoadedEvent {
    var own := PartsOfEvent(ps, e.id);
    LoadedEvent(e, EventRoles(rs, e.roleIds), seq(|own|, i requires 0 <= i < |own| => LoadPart(rs, own[i])))
  }

  // Queries of db/queries.py

  function EventKey(e: EventRow): Key {
    Key(Ordinal(e.date), e.slot)
  }

  /** The events dated on one of `dates`, in table order (`filter(Event.date.in_(dates))`). */
  function EventsOn(es: seq<EventRow>, dates: seq<Date>): (r: seq<EventRow>)
    ensures forall e :: e in r <==> e in es && e.date in dates
    ensures |r| <= |es|
  {
    if es == [] then []
    else (if es[0].date in dates then [es[0]] else []) + EventsOn(es[1..], dates)
  }

  /**
    The rows `get_events_for_dates` reads: exactly the events dated on one of `dates`,
    ordered by date and then by slot string.
  */
  function SelectedEvents(es: seq<EventRow>, dates: seq<Date>): (r: seq<EventRow>)
    ensures forall e :: e in r <==> e in es && e.date in dates
    ensures multiset(r) == multiset(EventsOn(es, dates))
    ensures SortedBy(r, EventKey)
  {
    var on := EventsOn(es, dates);
    var r := SortBy(on, EventKey);
    forall e
      ensures e in r <==> e in on
    {
      SortByMembers(on, EventKey, e);
    }
    r
  }

  /** `get_events_for_dates`: the DTOs of the selected events, in the same order. */
  function EventsForDates(es: seq<EventRow>, rs: seq<RoleRow>, ps: seq<PartRow>, dates: seq<Date>): (r: seq<EventDto>)
    ensures var rows := SelectedEvents(es, dates);
      |r| == |rows| && forall i :: 0 <= i < |r| ==> r[i] == ToEventDto(LoadEvent(rs, ps, rows[i]))
  {
    var rows := SelectedEvents(es, dates);
    seq(|rows|, i requires 0 <= i < |rows| => ToEventDto(LoadEvent(rs, ps, rows[i])))
  }

  /** `query(Event).filter_by(id=id).first()`: the first event with that id in table order. */
  function FindEvent(es: seq<EventRow>, id: int): (r: Option<EventRow>)
    ensures r.Some? ==> r.value in es && r.value.id == id
    ensures r.None? <==> forall i :: 0 <= i < |es| ==> es[i].id != id
  {
    if es == [] then None
    else if es[0].id == id then Some(es[0])
    else FindEvent(es[1..], id)
  }

  /** `get_event_by_id`: `None` when no event has the id, otherwise the DTO of that event. */
  function EventById(es: seq<EventRow>, rs: seq<RoleRow>, ps: seq<PartRow>, id: int): (r: Option<EventDto>)
    ensures r.None? <==> forall i :: 0 <= i < |es| ==> es[i].id != id
    ensures r.Some? ==> r.value.id == id && exists e :: e in es && e.id == id && r.value == ToEventDto(LoadEvent(rs, ps, e))
  {
    match FindEvent(es, id)
    case None => None
    case Some(e) => Some(ToEventDto(LoadEvent(rs, ps, e)))
  }

  /** A participation together with the event the inner join `join(Event)` pairs it with. */
  datatype Joined = Joined(part: PartRow, event: EventRow)

  /** `query(Participation).join(Event)`: each participation whose event exists, in table order. */
  function JoinEvents(ps: seq<PartRow>, es: seq<EventRow>): (r: seq<Joined>)
    ensures forall j :: j in r ==> j.part in ps && j.event in es && j.event.id == j.part.eventId
    ensures forall j :: j in r ==> FindEvent(es, j.part.eventId) == Some(j.event)
    ensures forall p :: p in ps && FindEvent(es, p.eventId).Some? ==> Joined(p, FindEvent(es, p.eventId).value) in r
    ensures |r| <= |ps|
  {
    if ps == [] then []
    else
      var rest := JoinEvents(ps[1..], es);
      match FindEvent(es, ps[0].eventId)
      case Some(e) => [Joined(ps[0], e)] + rest
      case None => rest
  }

  function JoinedKey(j: Joined): Key {
    EventKey(j.event)
  }

  /**
    The joined participations of `username`, in table order, restricted to events dated on
    or after `from` when a cut-off is given.
  */
  function UserParts(js: seq<Joined>, username: string, from: Option<Date>): (r: seq<Joined>)
    ensures forall j :: j in r <==> j in js && j.part.username == username && (from.Some? ==> NotAfter(from.value, j.event.date))
    ensures |r| <= |js|
  {
    if js == [] then []
    else
      var keep := js[0].part.username == username && (from.Some? ==> NotAfter(from.value, js[0].event.date));
      (if keep then [js[0]] else []) + UserParts(js[1..], username, from)
  }

  /**
    The rows of the cancellation menu and of the corrected `get_participations_for_username`:
    the user's participations dated on or after the cut-off, ordered by date and slot.
  */
  function UserPartsByDate(ps: seq<PartRow>, es: seq<EventRow>, username: string, from: Option<Date>): (r: seq<Joined>)
    ensures forall j :: j in r <==> j in JoinEvents(ps, es) && j.part.username == username && (from.Some? ==> NotAfter(from.value, j.event.date))
    ensures SortedBy(r, JoinedKey)
  {
    var sel := UserParts(JoinEvents(ps, es), username, from);
    var r := SortBy(sel, JoinedKey);
    forall j
      ensures j in r <==> j in sel
    {
      SortByMembers(sel, JoinedKey, j);
    }
    r
  }

  /**
    `get_participations_for_username` as written: its filter names `today`, which is not
    defined in db/queries.py, so every call raises `NameError` (`None` here).
  */
  function ParticipationsForUsernameAsWritten(ps: seq<PartRow>, es: seq<EventRow>, rs: seq<RoleRow>, username: string, afterDate: Date): (r: Option<seq<ParticipationDto>>)
    ensures r.None?
  {
    None
  }

  /** The query as intended: the filter uses the `after_date` parameter. */
  function ParticipationsForUsername(ps: seq<PartRow>, es: seq<EventRow>, rs: seq<RoleRow>, username: string, afterDate: Date): (r: seq<ParticipationDto>)
    ensures var rows := UserPartsByDate(ps, es, username, Some(afterDate));
      |r| == |rows| && forall i :: 0 <= i < |r| ==> r[i].id == rows[i].part.id && r[i].username == username
  {
    var rows := UserPartsByDate(ps, es, username, Some(afterDate));
    assert forall i :: 0 <= i < |rows| ==> rows[i] in rows;
    seq(|rows|, i requires 0 <= i < |rows| => ToParticipationDto(LoadPart(rs, rows[i].part)))
  }

  /**
    The discrepancy: whenever the user has a participation dated on or after `after_date`,
    the intended query returns it while the written one fails.
  */
  lemma ParticipationsForUsernameDiscrepancy(ps: seq<PartRow>, es: seq<EventRow>, rs: seq<RoleRow>, username: string, afterDate: Date, p: PartRow, e: EventRow)
    requires p in ps && p.username == username && FindEvent(es, p.eventId) == Some(e) && NotAfter(afterDate, e.date)
    ensures ParticipationsForUsernameAsWritten(ps, es, rs, username, afterDate).None?
    ensures |ParticipationsForUsername(ps, es, rs, username, afterDate)| > 0
  {
    assert Joined(p, e) in JoinEvents(ps, es);
    assert Joined(p, e) in UserPartsByDate(ps, es, username, Some(afterDate));
  }
}
