/**
  The mutable database: the tables of module Db held in one object whose methods insert,
  delete and update rows, plus the log of notifications sent to the administrators.
*/
module Store {
  import opened Wrappers
  import opened Calendar
  import opened WeekCalendar
  import opened Defaults
  import opened Db

  // The (date, slot) pairs of a week

  function DayPairs(d: Date): seq<(Date, string)> {
    [(d, Morning), (d, Evening)]
  }

  /** `for date in dates: for slot in ["morning", "evening"]`, as a list of pairs. */
  function WeekPairs(week: seq<Date>): (r: seq<(Date, string)>)
    ensures |r| == 2 * |week|
    ensures forall x :: x in r ==> x.0 in week && x.1 in Slots
    ensures forall d, s :: d in week && s in Slots ==> (d, s) in r
    decreases |week|
  {
    if week == [] then []
    else
      var init := week[..|week| - 1];
      var r := WeekPairs(init) + DayPairs(week[|week| - 1]);
      assert week == init + [week[|week| - 1]];
      r
  }

  /** Some event is dated `d` in slot `s`. */
  predicate HasEventAt(es: seq<EventRow>, d: Date, s: string) {
    exists i :: 0 <= i < |es| && es[i].date == d && es[i].slot == s
  }

  /** The pairs, in order, that no event of `es` occupies. */
  function Missing(pairs: seq<(Date, string)>, es: seq<EventRow>): (r: seq<(Date, string)>)
    ensures forall x :: x in r <==> x in pairs && !HasEventAt(es, x.0, x.1)
    ensures |r| <= |pairs|
    decreases |pairs|
  {
    if pairs == [] then []
    else
      var last := pairs[|pairs| - 1];
      assert pairs == pairs[..|pairs| - 1] + [last];
      Missing(pairs[..|pairs| - 1], es) + (if HasEventAt(es, last.0, last.1) then [] else [last])
  }

  lemma MissingAppend(pairs: seq<(Date, string)>, x: (Date, string), es: seq<EventRow>)
    ensures Missing(pairs + [x], es) == Missing(pairs, es) + (if HasEventAt(es, x.0, x.1) then [] else [x])
  {
    assert (pairs + [x])[..|pairs|] == pairs;
  }

  /** The default events created for `pairs`, with consecutive ids from `firstId`. */
  function NewEvents(pairs: seq<(Date, string)>, firstId: int, roleIds: seq<int>, rev: Revision): seq<EventRow>
    requires forall x :: x in pairs ==> x.1 in Slots
  {
    seq(|pairs|, k requires 0 <= k < |pairs| =>
      EventRow(firstId + k, pairs[k].0, pairs[k].1, DefaultName(pairs[k].1), DefaultTime(rev, pairs[k].0, pairs[k].1), roleIds))
  }

  lemma NewEventsAppend(pairs: seq<(Date, string)>, x: (Date, string), firstId: int, roleIds: seq<int>, rev: Revision)
    requires forall y :: y in pairs + [x] ==> y.1 in Slots
    ensures NewEvents(pairs + [x], firstId, roleIds, rev)
         == NewEvents(pairs, firstId, roleIds, rev) + [EventRow(firstId + |pairs|, x.0, x.1, DefaultName(x.1), DefaultTime(rev, x.0, x.1), roleIds)]
  {
    var all := pairs + [x];
    var l := NewEvents(all, firstId, roleIds, rev);
    var r := NewEvents(pairs, firstId, roleIds, rev) + [EventRow(firstId + |pairs|, x.0, x.1, DefaultName(x.1), DefaultTime(rev, x.0, x.1), roleIds)];
    forall k | 0 <= k < |l|
      ensures l[k] == r[k]
    {
      if k < |pairs| {
        assert all[k] == pairs[k];
      }
    }
  }

  /** After the missing pairs get an event each, every (date, slot) of the week has an event. */
  lemma MaterialisedWeekCovered(week: seq<Date>, es: seq<EventRow>, firstId: int, roleIds: seq<int>, rev: Revision, d: Date, s: string)
    requires d in week && s in Slots
    ensures HasEventAt(es + NewEvents(Missing(WeekPairs(week), es), firstId, roleIds, rev), d, s)
  {
    var missing := Missing(WeekPairs(week), es);
    var all := es + NewEvents(missing, firstId, roleIds, rev);
    if !HasEventAt(es, d, s) {
      assert (d, s) in missing;
      var k :| 0 <= k < |missing| && missing[k] == (d, s);
      assert all[|es| + k].date == d && all[|es| + k].slot == s;
    } else {
      var i :| 0 <= i < |es| && es[i].date == d && es[i].slot == s;
      assert all[i] == es[i];
    }
  }

  /** Idempotence: after one materialisation no pair of the week is missing, so a second call creates nothing. */
  lemma MaterialiseIdempotent(week: seq<Date>, es: seq<EventRow>, firstId: int, roleIds: seq<int>, rev: Revision)
    ensures Missing(WeekPairs(week), es + NewEvents(Missing(WeekPairs(week), es), firstId, roleIds, rev)) == []
  {
    var after := es + NewEvents(Missing(WeekPairs(week), es), firstId, roleIds, rev);
    var m := Missing(WeekPairs(week), after);
    if m != [] {
      var x := m[0];
      assert x in WeekPairs(week);
      MaterialisedWeekCovered(week, es, firstId, roleIds, rev, x.0, x.1);
    }
  }

  /** A created event never shares its (date, slot) with an event that existed before. */
  lemma NewEventsOnlyInGaps(week: seq<Date>, es: seq<EventRow>, firstId: int, roleIds: seq<int>, rev: Revision, e: EventRow)
    requires e in NewEvents(Missing(WeekPairs(week), es), firstId, roleIds, rev)
    ensures !HasEventAt(es, e.date, e.slot) && e.date in week && e.slot in Slots
  {
    var missing := Missing(WeekPairs(week), es);
    var x := NewEventFromPair(missing, firstId, roleIds, rev, e);
    MissingMember(WeekPairs(week), es, x);
  }

  /** Every new event takes its date and slot from one of the pairs. */
  lemma NewEventFromPair(pairs: seq<(Date, string)>, firstId: int, roleIds: seq<int>, rev: Revision, e: EventRow) returns (x: (Date, string))
    requires forall x :: x in pairs ==> x.1 in Slots
    requires e in NewEvents(pairs, firstId, roleIds, rev)
    ensures x in pairs && e.date == x.0 && e.slot == x.1
  {
    var evs := NewEvents(pairs, firstId, roleIds, rev);
    var k :| 0 <= k < |evs| && evs[k] == e;
    NewEventAt(pairs, firstId, roleIds, rev, k);
    x := pairs[k];
  }

  lemma MissingMember(pairs: seq<(Date, string)>, es: seq<EventRow>, x: (Date, string))
    requires x in Missing(pairs, es)
    ensures x in pairs && !HasEventAt(es, x.0, x.1)
  {
  }

  lemma NewEventAt(pairs: seq<(Date, string)>, firstId: int, roleIds: seq<int>, rev: Revision, k: int)
    requires forall x :: x in pairs ==> x.1 in Slots
    requires 0 <= k < |pairs|
    ensures |NewEvents(pairs, firstId, roleIds, rev)| == |pairs|
    ensures var e := NewEvents(pairs, firstId, roleIds, rev)[k];
      e.id == firstId + k && e.date == pairs[k].0 && e.slot == pairs[k].1
  {
  }

  /** With no event in the week, every pair of the week is missing. */
  lemma {:induction false} MissingAllWhenWeekEmpty(pairs: seq<(Date, string)>, week: seq<Date>, es: seq<EventRow>)
    requires forall x :: x in pairs ==> x.0 in week
    requires forall e :: e in es ==> e.date !in week
    ensures Missing(pairs, es) == pairs
    decreases |pairs|
  {
    if pairs != [] {
      var init := pairs[..|pairs| - 1];
      var last := pairs[|pairs| - 1];
      assert pairs == init + [last];
      assert forall x :: x in init ==> x in pairs;
      MissingAllWhenWeekEmpty(init, week, es);
    }
  }

  // Participations

  predicate SameTriple(p: PartRow, q: PartRow) {
    p.eventId == q.eventId && p.roleId == q.roleId && p.username == q.username
  }

  /** Some participation records this user in this role of this event. */
  predicate HasTriple(ps: seq<PartRow>, eventId: int, roleId: int, username: string) {
    exists i :: 0 <= i < |ps| && ps[i].eventId == eventId && ps[i].roleId == roleId && ps[i].username == username
  }

  predicate NoDuplicateTriples(ps: seq<PartRow>) {
    forall i, j :: 0 <= i < j < |ps| ==> !SameTriple(ps[i], ps[j])
  }

  /** The table without the participations whose ids are listed. */
  function WithoutIds(ps: seq<PartRow>, ids: seq<int>): (r: seq<PartRow>)
    ensures forall p :: p in r <==> p in ps && p.id !in ids
    ensures |r| <= |ps|
    ensures UniquePartIds(ps) ==> UniquePartIds(r)
  {
    if ps == [] then []
    else
      var rest := WithoutIds(ps[1..], ids);
      KeepOrDropHead(ps, rest, ps[0].id !in ids);
      (if ps[0].id !in ids then [ps[0]] else []) + rest
  }

  /** The table without the participations of `username` (`filter_by(username=...).delete()`). */
  function WithoutUser(ps: seq<PartRow>, username: string): (r: seq<PartRow>)
    ensures forall p :: p in r <==> p in ps && p.username != username
    ensures |r| <= |ps|
    ensures UniquePartIds(ps) ==> UniquePartIds(r)
  {
    if ps == [] then []
    else
      var rest := WithoutUser(ps[1..], username);
      KeepOrDropHead(ps, rest, ps[0].username != username);
      (if ps[0].username != username then [ps[0]] else []) + rest
  }

  /** The step of a filter: the head of the table is kept or dropped in front of the filtered tail. */
  lemma KeepOrDropHead(ps: seq<PartRow>, rest: seq<PartRow>, keep: bool)
    requires ps != []
    requires forall q :: q in rest ==> q in ps[1..]
    requires |rest| <= |ps| - 1
    requires UniquePartIds(ps[1..]) ==> UniquePartIds(rest)
    ensures forall p :: p in ps <==> p == ps[0] || p in ps[1..]
    ensures var r := (if keep then [ps[0]] else []) + rest;
      && (forall p :: p in r <==> (keep && p == ps[0]) || p in rest)
      && |r| <= |ps|
      && (UniquePartIds(ps) ==> UniquePartIds(r))
  {
    assert ps == [ps[0]] + ps[1..];
    var r := (if keep then [ps[0]] else []) + rest;
    if UniquePartIds(ps) {
      forall i, j | 0 <= i < j < |ps| - 1
        ensures ps[1..][i].id != ps[1..][j].id
      {
        assert ps[1..][i] == ps[i + 1] && ps[1..][j] == ps[j + 1];
      }
      if keep {
        forall i, j | 0 <= i < j < |r|
          ensures r[i].id != r[j].id
        {
          assert r[j] == rest[j - 1] && r[j] in rest;
          if i == 0 {
            var k :| 0 <= k < |ps| - 1 && ps[1..][k] == r[j];
            assert ps[k + 1] == r[j];
          } else {
            assert r[i] == rest[i - 1];
          }
        }
      }
    }
  }

  /**
    `after` is `before` with the time of the first event with id `id` set to `t`, and
    `found` says whether there was one; with no id or no such event nothing changes.
  */
  ghost predicate Retimed(before: seq<EventRow>, after: seq<EventRow>, id: Option<int>, t: string, found: bool) {
    && (found <==> id.Some? && EventIndex(before, id.value).Some?)
    && (found ==> var k := EventIndex(before, id.value).value; after == before[k := before[k].(time := t)])
    && (!found ==> after == before)
  }

  /** The position of the first event with the id, if any. */
  function EventIndex(es: seq<EventRow>, id: int): (r: Option<nat>)
    ensures r.Some? ==> r.value < |es| && es[r.value].id == id && forall i :: 0 <= i < r.value ==> es[i].id != id
    ensures r.None? <==> forall i :: 0 <= i < |es| ==> es[i].id != id
  {
    if es == [] then None
    else if es[0].id == id then Some(0)
    else match EventIndex(es[1..], id)
      case None => None
      case Some(k) => Some(k + 1)
  }

  lemma UniqueIdsAfterAppend(es: seq<EventRow>, e: EventRow)
    requires UniqueEventIds(es) && e.id == NextId(EventIds(es))
    ensures UniqueEventIds(es + [e]) && EventIds(es + [e]) == EventIds(es) + [e.id]
  {
    assert forall i :: 0 <= i < |es| ==> EventIds(es)[i] == es[i].id;
  }

  /** One turn of the role loop: the table and the collected ids follow `AddRolesIfMissing` and `RoleIdsFor`. */
  lemma RolesLoopStep(rs: seq<RoleRow>, names: seq<string>, j: int, before: seq<RoleRow>, after: seq<RoleRow>, ids: seq<int>, role: RoleRow)
    requires 0 <= j < |names|
    requires before == AddRolesIfMissing(rs, names[..j]) && ids == RoleIdsFor(before, names[..j])
    requires after == AddRoleIfMissing(before, names[j]) && RoleByName(after, names[j]) == Some(role)
    ensures after == AddRolesIfMissing(rs, names[..j + 1])
    ensures AllNamed(after, names[..j + 1]) && ids + [role.id] == RoleIdsFor(after, names[..j + 1])
  {
    RolesPrefixStep(rs, names, j);
    KeptResolution(before, after, names[..j], names[j]);
    TakeOneMore(names, j);
    RoleIdsAppend(before, after, names[..j], names[j], role);
  }

  lemma TakeOneMore<T>(s: seq<T>, j: int)
    requires 0 <= j < |s|
    ensures s[..j + 1] == s[..j] + [s[j]]
  {
  }

  /** `AddRolesIfMissing` over one more name is one more `AddRoleIfMissing`. */
  lemma RolesPrefixStep(rs: seq<RoleRow>, names: seq<string>, j: int)
    requires 0 <= j < |names|
    ensures AddRolesIfMissing(rs, names[..j + 1]) == AddRoleIfMissing(AddRolesIfMissing(rs, names[..j]), names[j])
  {
    var next := names[..j + 1];
    assert next[..j] == names[..j] && next[j] == names[j];
  }

  /** Collecting one more role id extends `RoleIdsFor` by that id. */
  lemma RoleIdsAppend(before: seq<RoleRow>, after: seq<RoleRow>, prefix: seq<string>, name: string, role: RoleRow)
    requires AllNamed(before, prefix) && RoleByName(after, name) == Some(role)
    requires forall i :: 0 <= i < |prefix| ==> RoleByName(after, prefix[i]) == RoleByName(before, prefix[i])
    ensures AllNamed(after, prefix + [name])
    ensures RoleIdsFor(before, prefix) + [role.id] == RoleIdsFor(after, prefix + [name])
  {
    var next := prefix + [name];
    forall i | 0 <= i < |next|
      ensures RoleByName(after, next[i]).Some?
    {
      if i < |prefix| {
        assert next[i] == prefix[i];
        assert RoleByName(before, prefix[i]).Some?;
      }
    }
    var lhs := RoleIdsFor(before, prefix) + [role.id];
    var rhs := RoleIdsFor(after, next);
    forall i | 0 <= i < |next|
      ensures lhs[i] == rhs[i]
    {
      if i < |prefix| {
        assert next[i] == prefix[i];
      }
    }
  }

  /** Names resolved before one more `get_or_create_role` resolve to the same roles after it. */
  lemma KeptResolution(before: seq<RoleRow>, after: seq<RoleRow>, names: seq<string>, name: string)
    requires AllNamed(before, names) && after == AddRoleIfMissing(before, name)
    ensures forall i :: 0 <= i < |names| ==> RoleByName(after, names[i]) == RoleByName(before, names[i])
  {
    forall i | 0 <= i < |names|
      ensures RoleByName(after, names[i]) == RoleByName(before, names[i])
    {
      assert RoleByName(before, names[i]).Some?;
    }
  }

  /** Every pair names one of the two slots. */
  predicate SlotsOk(pairs: seq<(Date, string)>) {
    forall x :: x in pairs ==> x.1 in Slots
  }

  lemma SlotsOkAppend(pairs: seq<(Date, string)>, x: (Date, string))
    requires SlotsOk(pairs) && x.1 in Slots
    ensures SlotsOk(pairs + [x])
  {
  }

  /**
    What the nested loop of `ensure_week_events` has written once it has visited the pairs
    `done`: nothing while no pair was missing, otherwise the roles `names` and one default
    event per missing pair, with ids counting up from `firstId`.
  */
  ghost predicate Progress(done: seq<(Date, string)>, oldEvents: seq<EventRow>, oldRoles: seq<RoleRow>, firstId: int, rev: Revision, names: seq<string>,
                           events: seq<EventRow>, roles: seq<RoleRow>)
    requires SlotsOk(done)
  {
    var m := Missing(done, oldEvents);
    && (m == [] ==> roles == oldRoles && events == oldEvents)
    && (m != [] ==>
          roles == AddRolesIfMissing(oldRoles, names)
          && events == oldEvents + NewEvents(m, firstId, RoleIdsFor(roles, names), rev))
    && NextId(EventIds(events)) == firstId + |m|
    && UniqueEventIds(events)
  }

  /** A pair that already has an event leaves the progress as it is. */
  lemma ProgressSkip(done: seq<(Date, string)>, x: (Date, string), oldEvents: seq<EventRow>, oldRoles: seq<RoleRow>, firstId: int, rev: Revision, names: seq<string>,
                     events: seq<EventRow>, roles: seq<RoleRow>)
    requires SlotsOk(done) && SlotsOk(done + [x])
    requires Progress(done, oldEvents, oldRoles, firstId, rev, names, events, roles)
    requires HasEventAt(oldEvents, x.0, x.1)
    ensures Progress(done + [x], oldEvents, oldRoles, firstId, rev, names, events, roles)
  {
    MissingAppend(done, x, oldEvents);
    assert Missing(done + [x], oldEvents) == Missing(done, oldEvents) + [];
    assert Missing(done, oldEvents) + [] == Missing(done, oldEvents);
  }

  /** A missing pair gets the next default event, and the roles exist from the first one on. */
  lemma ProgressCreate(done: seq<(Date, string)>, x: (Date, string), oldEvents: seq<EventRow>, oldRoles: seq<RoleRow>, firstId: int, rev: Revision, names: seq<string>,
                       eventsBefore: seq<EventRow>, rolesBefore: seq<RoleRow>, events: seq<EventRow>, roles: seq<RoleRow>)
    requires SlotsOk(done) && SlotsOk(done + [x])
    requires Progress(done, oldEvents, oldRoles, firstId, rev, names, eventsBefore, rolesBefore)
    requires !HasEventAt(oldEvents, x.0, x.1)
    requires roles == AddRolesIfMissing(rolesBefore, names)
    requires events == eventsBefore + [EventRow(NextId(EventIds(eventsBefore)), x.0, x.1, DefaultName(x.1), DefaultTime(rev, x.0, x.1), RoleIdsFor(roles, names))]
    requires UniqueEventIds(events) && NextId(EventIds(events)) == NextId(EventIds(eventsBefore)) + 1
    ensures Progress(done + [x], oldEvents, oldRoles, firstId, rev, names, events, roles)
  {
    var m := Missing(done, oldEvents);
    MissingAppend(done, x, oldEvents);
    assert Missing(done + [x], oldEvents) == m + [x];
    var row := EventRow(NextId(EventIds(eventsBefore)), x.0, x.1, DefaultName(x.1), DefaultTime(rev, x.0, x.1), RoleIdsFor(roles, names));
    if m == [] {
      assert rolesBefore == oldRoles && eventsBefore == oldEvents;
      assert m + [x] == [x];
      NewEventsOne(x, firstId, RoleIdsFor(roles, names), rev);
    } else {
      assert rolesBefore == AddRolesIfMissing(oldRoles, names);
      assert roles == rolesBefore;
      var ids := RoleIdsFor(roles, names);
      assert eventsBefore == oldEvents + NewEvents(m, firstId, ids, rev);
      NewEventsAppend(m, x, firstId, ids, rev);
      assert row == EventRow(firstId + |m|, x.0, x.1, DefaultName(x.1), DefaultTime(rev, x.0, x.1), ids);
      assert NewEvents(m + [x], firstId, ids, rev) == NewEvents(m, firstId, ids, rev) + [row];
      AppendAssoc(oldEvents, NewEvents(m, firstId, ids, rev), [row]);
    }
  }

  lemma NewEventsOne(x: (Date, string), firstId: int, roleIds: seq<int>, rev: Revision)
    requires x.1 in Slots
    ensures NewEvents([x], firstId, roleIds, rev) == [EventRow(firstId, x.0, x.1, DefaultName(x.1), DefaultTime(rev, x.0, x.1), roleIds)]
  {
  }

  lemma AppendAssoc<T>(a: seq<T>, b: seq<T>, c: seq<T>)
    ensures a + b + c == a + (b + c)
  {
  }

  /** `[f(x) for x in s]`. */
  function MapSeq<T, U>(f: T -> U, s: seq<T>): (r: seq<U>)
    ensures |r| == |s| && forall i :: 0 <= i < |s| ==> r[i] == f(s[i])
  {
    seq(|s|, i requires 0 <= i < |s| => f(s[i]))
  }

  lemma MapSeqStep<T, U>(f: T -> U, s: seq<T>, i: int)
    requires 0 <= i < |s|
    ensures MapSeq(f, s[..i + 1]) == MapSeq(f, s[..i]) + [f(s[i])]
  {
    var a := MapSeq(f, s[..i + 1]);
    var b := MapSeq(f, s[..i]) + [f(s[i])];
    assert forall k :: 0 <= k < |a| ==> a[k] == b[k];
  }

  lemma WeekPairsStep(week: seq<Date>, i: int)
    requires 0 <= i < |week|
    ensures WeekPairs(week[..i + 1]) == WeekPairs(week[..i]) + DayPairs(week[i])
  {
    assert week[..i + 1][..i] == week[..i];
  }

  /** The inner loop's visited pairs: `k` slots of the day after `start`. */
  lemma DayPairsStep(start: seq<(Date, string)>, date: Date, k: int)
    requires 0 <= k <= 2
    ensures k < 2 ==> start + DayPairs(date)[..k + 1] == start + DayPairs(date)[..k] + [(date, Slots[k])]
    ensures k == 2 ==> DayPairs(date)[..k] == DayPairs(date)
  {
  }

  /**
    The tables `ensure_week_events` of service/schedule_service.py leaves behind: when a
    (date, slot) of the week is empty the default roles exist and one default event per
    empty pair follows the old events; otherwise nothing changes.
  */
  ghost predicate WeekEnsured(week: seq<Date>, rev: Revision, oldEvents: seq<EventRow>, oldRoles: seq<RoleRow>, events: seq<EventRow>, roles: seq<RoleRow>) {
    var missing := Missing(WeekPairs(week), oldEvents);
    && (missing == [] ==> roles == oldRoles && events == oldEvents)
    && (missing != [] ==>
          roles == AddRolesIfMissing(oldRoles, DefaultRoles)
          && events == oldEvents + NewEvents(missing, NextId(EventIds(oldEvents)), RoleIdsFor(roles, DefaultRoles), rev))
  }

  /**
    Once the week is ensured every (date, slot) of it has an event, the old events are kept
    as a prefix, and at most two events per date were added.
  */
  lemma WeekEnsuredCovers(week: seq<Date>, rev: Revision, oldEvents: seq<EventRow>, oldRoles: seq<RoleRow>, events: seq<EventRow>, roles: seq<RoleRow>)
    requires WeekEnsured(week, rev, oldEvents, oldRoles, events, roles)
    ensures forall d, s :: d in week && s in Slots ==> HasEventAt(events, d, s)
    ensures |oldEvents| <= |events| <= |oldEvents| + 2 * |week| && events[..|oldEvents|] == oldEvents
  {
    var missing := Missing(WeekPairs(week), oldEvents);
    if missing != [] {
      forall d, s | d in week && s in Slots
        ensures HasEventAt(events, d, s)
      {
        MaterialisedWeekCovered(week, oldEvents, NextId(EventIds(oldEvents)), RoleIdsFor(roles, DefaultRoles), rev, d, s);
      }
      assert events[..|oldEvents|] == oldEvents;
    } else {
      forall d, s | d in week && s in Slots
        ensures HasEventAt(events, d, s)
      {
        assert (d, s) in WeekPairs(week);
      }
    }
  }

  class Database {
    var events: seq<EventRow>
    var roles: seq<RoleRow>
    var parts: seq<PartRow>
    /** The notifications sent to the administrators, oldest first. */
    var log: seq<string>

    /** Ids are unique in each table, as primary keys. */
    ghost predicate Valid()
      reads this
    {
      UniqueEventIds(events) && UniqueRoleIds(roles) && UniquePartIds(parts)
    }

    /** An empty database. */
    constructor ()
      ensures events == [] && roles == [] && parts == [] && log == []
      ensures Valid()
    {
      events := [];
      roles := [];
      parts := [];
      log := [];
    }

    /** `get_or_create_role`: the first role of that name, inserting it when there is none. */
    method GetOrCreateRole(name: string) returns (role: RoleRow)
      modifies this
      ensures roles == AddRoleIfMissing(old(roles), name)
      ensures RoleByName(roles, name) == Some(role)
      ensures RoleByName(old(roles), name).Some? ==> role == RoleByName(old(roles), name).value
      ensures events == old(events) && parts == old(parts) && log == old(log)
    {
      var found := RoleByName(roles, name);
      if found.Some? {
        role := found.value;
      } else {
        role := RoleRow(NextId(RoleIds(roles)), name);
        RoleByNameAppend(roles, [role], name);
        roles := roles + [role];
      }
    }

    /** `get_or_create_role` for each name in turn, collecting the roles' ids. */
    method GetOrCreateRoles(names: seq<string>) returns (roleIds: seq<int>)
      modifies this
      ensures roles == AddRolesIfMissing(old(roles), names)
      ensures roleIds == RoleIdsFor(roles, names)
      ensures events == old(events) && parts == old(parts) && log == old(log)
    {
      roleIds := [];
      for j := 0 to |names|
        invariant roles == AddRolesIfMissing(old(roles), names[..j])
        invariant roleIds == RoleIdsFor(roles, names[..j])
        invariant events == old(events) && parts == old(parts) && log == old(log)
      {
        ghost var before := roles;
        var role := GetOrCreateRole(names[j]);
        RolesLoopStep(old(roles), names, j, before, roles, roleIds, role);
        roleIds := roleIds + [role.id];
      }
      assert names[..|names|] == names;
    }

    /** `for role_name in DEFAULT_ROLES: event.roles.append(get_or_create_role(session, role_name))`. */
    method AttachDefaultRoles() returns (roleIds: seq<int>)
      modifies this
      ensures roles == AddRolesIfMissing(old(roles), DefaultRoles)
      ensures AllNamed(roles, DefaultRoles) && roleIds == RoleIdsFor(roles, DefaultRoles)
      ensures events == old(events) && parts == old(parts) && log == old(log)
    {
      roleIds := GetOrCreateRoles(DefaultRoles);
    }

    /** One new event for `(date, slot)` with the default name, time and roles. */
    method CreateDefaultEvent(date: Date, slot: string, rev: Revision)
      requires slot in Slots && UniqueEventIds(events)
      modifies this
      ensures roles == AddRolesIfMissing(old(roles), DefaultRoles) && AllNamed(roles, DefaultRoles)
      ensures events == old(events) + [EventRow(NextId(EventIds(old(events))), date, slot, DefaultName(slot), DefaultTime(rev, date, slot), RoleIdsFor(roles, DefaultRoles))]
      ensures UniqueEventIds(events) && NextId(EventIds(events)) == NextId(EventIds(old(events))) + 1
      ensures parts == old(parts) && log == old(log)
    {
      var roleIds := AttachDefaultRoles();
      var event := EventRow(NextId(EventIds(events)), date, slot, DefaultName(slot), DefaultTime(rev, date, slot), roleIds);
      AddEvent(event);
    }

    /** `session.add(event)` for an event carrying the next id. */
    method AddEvent(event: EventRow)
      requires UniqueEventIds(events) && event.id == NextId(EventIds(events))
      modifies this
      ensures events == old(events) + [event]
      ensures UniqueEventIds(events) && NextId(EventIds(events)) == NextId(EventIds(old(events))) + 1
      ensures roles == old(roles) && parts == old(parts) && log == old(log)
    {
      UniqueIdsAfterAppend(events, event);
      NextIdAfterAppend(EventIds(events));
      events := events + [event];
    }

    /** The body of the nested loop: a default event for `(date, slot)` unless one existed before the loop. */
    method CreateIfMissing(ghost visited: seq<(Date, string)>, existing: seq<EventRow>, ghost oldRoles: seq<RoleRow>, ghost firstId: int,
                           date: Date, slot: string, rev: Revision)
      requires slot in Slots && SlotsOk(visited) && Progress(visited, existing, oldRoles, firstId, rev, DefaultRoles, events, roles)
      modifies this
      ensures SlotsOk(visited + [(date, slot)])
      ensures Progress(visited + [(date, slot)], existing, oldRoles, firstId, rev, DefaultRoles, events, roles)
      ensures parts == old(parts) && log == old(log)
    {
      SlotsOkAppend(visited, (date, slot));
      if !HasEventAt(existing, date, slot) {
        CreateDefaultEvent(date, slot, rev);
        ProgressCreate(visited, (date, slot), existing, oldRoles, firstId, rev, DefaultRoles, old(events), old(roles), events, roles);
      } else {
        ProgressSkip(visited, (date, slot), existing, oldRoles, firstId, rev, DefaultRoles, events, roles);
      }
    }

    /** The inner loop of `ensure_week_events`: the morning, then the evening of one date. */
    method CreateMissingOnDay(ghost start: seq<(Date, string)>, existing: seq<EventRow>, ghost oldRoles: seq<RoleRow>, ghost firstId: int,
                              date: Date, rev: Revision)
      requires SlotsOk(start) && Progress(start, existing, oldRoles, firstId, rev, DefaultRoles, events, roles)
      modifies this
      ensures SlotsOk(start + DayPairs(date))
      ensures Progress(start + DayPairs(date), existing, oldRoles, firstId, rev, DefaultRoles, events, roles)
      ensures parts == old(parts) && log == old(log)
    {
      ghost var visited := start;
      var k := 0;
      while k < 2
        invariant 0 <= k <= 2
        invariant visited == start + DayPairs(date)[..k] && SlotsOk(visited)
        invariant Progress(visited, existing, oldRoles, firstId, rev, DefaultRoles, events, roles)
        invariant parts == old(parts) && log == old(log)
      {
        var slot := Slots[k];
        DayPairsStep(start, date, k);
        CreateIfMissing(visited, existing, oldRoles, firstId, date, slot, rev);
        visited := visited + [(date, slot)];
        k := k + 1;
      }
      DayPairsStep(start, date, 2);
    }

    /**
      The nested loop of `ensure_week_events`: every (date, slot) of `week` that no existing
      event occupies gets a default event; the default roles are created with the first one.
    */
    method CreateMissingEvents(week: seq<Date>, rev: Revision)
      requires UniqueEventIds(events)
      modifies this
      ensures WeekEnsured(week, rev, old(events), old(roles), events, roles)
      ensures UniqueEventIds(events)
      ensures parts == old(parts) && log == old(log)
    {
      var existing := events;
      ghost var firstId := NextId(EventIds(events));
      ghost var visited: seq<(Date, string)> := [];
      var i := 0;
      while i < |week|
        invariant 0 <= i <= |week|
        invariant visited == WeekPairs(week[..i]) && SlotsOk(visited)
        invariant Progress(visited, existing, old(roles), firstId, rev, DefaultRoles, events, roles)
        invariant existing == old(events) && parts == old(parts) && log == old(log)
      {
        var date := week[i];
        WeekPairsStep(week, i);
        CreateMissingOnDay(visited, existing, old(roles), firstId, date, rev);
        visited := visited + DayPairs(date);
        i := i + 1;
      }
      assert week[..|week|] == week;
    }

    /**
      `ensure_week_events` of service/schedule_service.py: fills every empty (date, slot) of
      the rolling week, leaves every existing event as it is, and creates at most 14 events.
    */
    method EnsureWeekEvents(today: Date)
      requires WindowFits(today) && Valid()
      modifies this
      ensures Valid()
      ensures WeekEnsured(RollingWeek(today), Layered, old(events), old(roles), events, roles)
      ensures forall d, s :: d in RollingWeek(today) && s in Slots ==> HasEventAt(events, d, s)
      ensures |old(events)| <= |events| <= |old(events)| + 14 && events[..|old(events)|] == old(events)
      ensures parts == old(parts) && log == old(log)
    {
      var week := RollingWeek(today);
      CreateMissingEvents(week, Layered);
      WeekEnsuredCovers(week, Layered, old(events), old(roles), events, roles);
    }

    /**
      `ensure_week_events` of bot.py: when no event is dated in this Monday-to-Sunday week it
      creates all 14 default events; when there is one, it creates nothing.
    */
    method EnsureWeekAllOrNothing(today: Date)
      requires WindowFits(MondayOf(today)) && Valid()
      modifies this
      ensures Valid()
      ensures var week := MondayWeek(today);
        && (|EventsOn(old(events), week)| == 0 ==>
              roles == AddRolesIfMissing(old(roles), DefaultRoles)
              && events == old(events) + NewEvents(WeekPairs(week), NextId(EventIds(old(events))), RoleIdsFor(roles, DefaultRoles), Legacy))
        && (|EventsOn(old(events), week)| > 0 ==> roles == old(roles) && events == old(events))
      ensures parts == old(parts) && log == old(log)
    {
      var week := MondayWeek(today);
      if |EventsOn(events, week)| == 0 {
        MissingAllWhenWeekEmpty(WeekPairs(week), week, events);
        CreateMissingEvents(week, Legacy);
      }
    }

    /**
      `ensure_week_events` of bot_app/handlers.py: all-or-nothing like bot.py, but the roles
      come from `get_role`, which never creates one. A missing default role puts `None` into
      `event.roles`, the flush fails, and the session is rolled back: `ok` is false and
      nothing is written.
    */
    method EnsureWeekExistingRoles(today: Date) returns (ok: bool)
      requires WindowFits(MondayOf(today)) && Valid()
      modifies this
      ensures Valid()
      ensures var week := MondayWeek(today);
        && (!ok <==> |EventsOn(old(events), week)| == 0 && !AllNamed(old(roles), DefaultRoles))
        && (ok && |EventsOn(old(events), week)| == 0 ==>
              roles == old(roles)
              && events == old(events) + NewEvents(WeekPairs(week), NextId(EventIds(old(events))), RoleIdsFor(roles, DefaultRoles), Legacy))
        && (!ok || |EventsOn(old(events), week)| > 0 ==> roles == old(roles) && events == old(events))
      ensures parts == old(parts) && log == old(log)
    {
      var week := MondayWeek(today);
      ok := true;
      if |EventsOn(events, week)| == 0 {
        if AllNamed(roles, DefaultRoles) {
          MissingAllWhenWeekEmpty(WeekPairs(week), week, events);
          CreateMissingEvents(week, Legacy);
        } else {
          ok := false;
        }
      }
    }

    /**
      The write of `choose_role`: look for the same (event, role, username) and insert one
      participation only when there is none.
    */
    method Signup(username: string, eventId: int, roleId: int) returns (inserted: bool)
      requires Valid()
      modifies this
      ensures Valid()
      ensures inserted <==> !HasTriple(old(parts), eventId, roleId, username)
      ensures inserted ==> parts == old(parts) + [PartRow(NextId(PartIds(old(parts))), username, eventId, roleId)]
      ensures !inserted ==> parts == old(parts)
      ensures NoDuplicateTriples(old(parts)) ==> NoDuplicateTriples(parts)
      ensures HasTriple(parts, eventId, roleId, username)
      ensures events == old(events) && roles == old(roles) && log == old(log)
    {
      var already := HasTriple(parts, eventId, roleId, username);
      if already {
        inserted := false;
      } else {
        var p := PartRow(NextId(PartIds(parts)), username, eventId, roleId);
        assert forall i :: 0 <= i < |parts| ==> PartIds(parts)[i] == parts[i].id;
        parts := parts + [p];
        assert parts[|parts| - 1] == p;
        inserted := true;
      }
    }

    /** `session.delete(part)` for the participation with this id. */
    method DeleteParticipation(id: int)
      requires Valid()
      modifies this
      ensures Valid()
      ensures parts == WithoutIds(old(parts), [id])
      ensures events == old(events) && roles == old(roles) && log == old(log)
    {
      parts := WithoutIds(parts, [id]);
    }

    /** `query(Participation).filter_by(username=username).delete()`. */
    method DeleteByUsername(username: string)
      requires Valid()
      modifies this
      ensures Valid()
      ensures parts == WithoutUser(old(parts), username)
      ensures events == old(events) && roles == old(roles) && log == old(log)
    {
      parts := WithoutUser(parts, username);
    }

    /** `event.time = new_time` for the first event with the id; `false` when there is none. */
    method SetEventTime(id: Option<int>, newTime: string) returns (found: bool)
      requires Valid()
      modifies this
      ensures Valid()
      ensures Retimed(old(events), events, id, newTime, found)
      ensures roles == old(roles) && parts == old(parts) && log == old(log)
    {
      found := false;
      if id.Some? {
        var k := EventIndex(events, id.value);
        if k.Some? {
          events := events[k.value := events[k.value].(time := newTime)];
          found := true;
        }
      }
    }

    /** Sends a notification to the administrators. */
    method Notify(text: string)
      modifies this
      ensures log == old(log) + [text]
      ensures events == old(events) && roles == old(roles) && parts == old(parts)
    {
      log := log + [text];
    }
  }
}
