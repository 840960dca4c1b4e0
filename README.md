# schedule-bot: scheduling and participation core

A model, in Dafny, of the Telegram bot that publishes a church's weekly service schedule and
lets members sign up for a role at a service. The bot keeps three tables (`event`, `role`,
`participation`). Every event is a (date, slot) pair with slot `"morning"` or `"evening"`, a
name, an `HH:MM` time and a list of roles. Members walk a short dialogue: day, then event,
then role. Administrators can change an event's time.

The model follows three revisions of the program:

- **Layered revision**: `flows/participation.py`, `flows/cancellation.py`, `flows/admin.py`,
  `service/schedule_service.py`, `db/queries.py`, `db/dto.py`, `utils/formatting.py` and
  `utils/text_utils.py`. It is the main line of the model.
- **Monolith**: `bot.py`.
- **Split revision**: `bot_app/handlers.py` with `utils/datetime_utils.py`.

The two older revisions share most of their code. Each difference between them is a branch on
`LegacyFlow.Variant` (`Monolith` or `Split`).

Modules, bottom up:

- `Wrappers`, `PyStrings`, `Numerals`, `Markdown`: `None`, `str.strip`, `str.join`, `int()`,
  `str()` of an integer, and the two backslash escapers.
- `Calendar`, `IsoDate`, `WeekCalendar`: Python's proleptic Gregorian `date`, including
  `toordinal`, `weekday`, `timedelta` arithmetic and `isoformat`/`fromisoformat`. Also the two
  definitions of "the week": today and the six days after it, or Monday to Sunday.
- `Ordering`: the `ORDER BY date, slot` of the queries, as a stable sort.
- `Tokens`: the `tag|value` callback data of the inline buttons and `data.split("|")`.
- `Defaults`: the weekday, month, slot, default-name, default-time and default-role tables of
  both copies.
- `Db`: the tables as sequences of rows, the ORM's loading of relationships, the DTO
  projections and the queries of `db/queries.py`.
- `Store`: class `Database`, whose methods change the three tables in place. It carries
  `get_or_create_role`, the three variants of `ensure_week_events`, sign-up, cancellation and
  the time change. Notifications to administrators go to an append-only `log`.
- `Schedule`, `Render`: the week's schedule text, the date strings and the button labels.
- `Dialogue`: conversation states, per-user data (class `UserData`), the handler lists of the
  `ConversationHandler`s of every revision, and python-telegram-bot's dispatch over them: the
  current state's handlers in order, then the fallbacks.
- `ParticipationFlow`, `CancellationFlow`, `AdminFlow`: the handlers of the layered revision.
- `LegacyFlow`, `LegacyCancellation`, `LegacyAdmin`: the handlers of the monolith and of the
  split revision.

A handler takes the database, the user's data, the clock's "today", whether the user is an
administrator (where the handler asks) and the incoming text or callback data. It returns a
`Dialogue.Step`: the next state with the buttons offered there, or the end of the conversation
with its reply. A Python exception raised inside a handler becomes the step `Raised`: the
conversation keeps its state, and the contract says which tables were already written.

## Model

| member | source | states |
|---|---|---|
| PyStrings.StripLeft | flows/admin.py:67 | the result is a suffix of the input, everything dropped is whitespace, and it does not start with whitespace |
| PyStrings.StripRight | flows/admin.py:67 | the result is a prefix of the input, everything dropped is whitespace, and it does not end with whitespace |
| PyStrings.Strip | flows/admin.py:67 | `text.strip()` neither starts nor ends with whitespace |
| PyStrings.StripLeftOf | flows/admin.py:67 | whitespace followed by text that does not start with whitespace left-strips to that text |
| PyStrings.StripRightOf | flows/admin.py:67 | text that does not end with whitespace, followed by whitespace, right-strips to that text |
| PyStrings.StripSurrounded | flows/admin.py:67 | `strip` returns exactly the text between leading and trailing whitespace, so an admin's `" 09:00 "` is stored as `"09:00"` |
| PyStrings.StripIdempotent | flows/admin.py:67 | stripping twice is stripping once |
| PyStrings.Join | utils/formatting.py:58 | `sep.join` of no parts is empty, and the result begins with the first part |
| Markdown.EscapeMd2 | utils/formatting.py:36-38 | `escape_username_md2` adds one character per special character, and every special character of the output has a backslash before it |
| Markdown.UnescapeEscape | utils/formatting.py:36-38 | escaping loses nothing: dropping the added backslashes gives the username back |
| Markdown.EscapeMarkdown | utils/text_utils.py:4-10 | `escape_markdown` equals the username escaper, including the empty input; its line-start hyphen pass never changes anything |
| Markdown.EscapedHyphensUntouched | utils/text_utils.py:9 | the `(?m)^-` substitution leaves a text unchanged when every hyphen already has a backslash before it |
| Numerals.Padded | db/queries.py:20 | a zero-padded field has exactly the requested width and only digits |
| Numerals.PaddedValue | db/queries.py:20 | reading a padded field back gives the number written |
| Numerals.ValuePadded | utils/formatting.py:45 | a field of digits is the padded form of its own value |
| Numerals.NatString | flows/participation.py:62 | `str(n)` of a natural number is digits with the value `n`, and has no leading zero unless `n` is 0 |
| Numerals.DecimalString | flows/participation.py:62 | `str(n)` is never empty and starts with `-` exactly when `n` is negative |
| Numerals.ParseInt | flows/participation.py:77-78 | `int(s)` on the forms the bot writes: it succeeds exactly on an optional sign followed by one or more ASCII digits, and raises `ValueError` otherwise (the further forms Python accepts are under "Left out") |
| Numerals.ParseDecimal | flows/participation.py:62-78 | `int(str(n)) == n`: an id written into a button comes back unchanged |
| IsoDate.FormatIso | db/queries.py:20 | `isoformat` writes ten characters: four digits, a hyphen, two digits, a hyphen, two digits |
| IsoDate.ParseIso | utils/formatting.py:45 | `fromisoformat` on plain dates: a result only for strings of the `YYYY-MM-DD` shape naming an existing date (the date-time forms `datetime.fromisoformat` also accepts are under "Left out") |
| IsoDate.ParsedFields | utils/formatting.py:45 | a parsed date's year, month and day are the values of the string's three fields |
| IsoDate.ParseFormat | utils/formatting.py:45 | every date written by `isoformat` is read back by `fromisoformat` as the same date |
| IsoDate.FormatParse | flows/participation.py:53-59 | every string that parses is exactly the `isoformat` of its date, so the date chosen by a button finds the schedule key it was made from |
| IsoDate.FormatInjective | flows/participation.py:26-28 | different dates have different ISO keys in the `schedule` dictionary |
| Calendar.DaysInMonth | service/schedule_service.py:28 | every month has between 28 and 31 days |
| Calendar.DaysBeforeYearFormula | service/schedule_service.py:28 | counting the days of the years one by one agrees with the closed form of the Gregorian rule (every 4th year, not every 100th, but every 400th) |
| Calendar.Weekday | service/schedule_service.py:35 | `date.weekday()` lies in 0..6 |
| Calendar.OrdinalRange | service/schedule_service.py:28 | day numbers run from 1 (0001-01-01, the only date with number 1) to that of 9999-12-31 |
| Calendar.NextDay | service/schedule_service.py:28 | `d + timedelta(days=1)` has the next day number |
| Calendar.PrevDay | bot.py:84 | `d - timedelta(days=1)` has the previous day number |
| Calendar.BeforeOrdinal | db/queries.py:36 | an earlier date has a smaller day number |
| Calendar.BeforeIffOrdinalLess | db/queries.py:36 | comparing dates field by field, as `ORDER BY date` and `date >= today` do, agrees with comparing day numbers, in both directions |
| Calendar.OrdinalInjective | db/queries.py:36 | two dates with the same day number are the same date |
| Calendar.AddDays | service/schedule_service.py:28 | `d + timedelta(days=n)` is `n` day numbers later |
| Calendar.SubDays | bot.py:84 | `d - timedelta(days=n)` is `n` day numbers earlier |
| WeekCalendar.RollingWeek | service/schedule_service.py:26-28 | `week_dates` gives seven consecutive dates that start today |
| WeekCalendar.MondayOf | bot.py:84 | `today - timedelta(days=today.weekday())` is a Monday at most six days back |
| WeekCalendar.MondayWeek | bot.py:82-85 | `week_dates` gives seven consecutive dates from a Monday, and today sits at the position of its weekday |
| WeekCalendar.ConsecutiveOrdinals | service/schedule_service.py:28 | along consecutive dates the day number rises by one per position |
| WeekCalendar.ConsecutiveIncreasing | service/schedule_service.py:28 | consecutive dates are strictly increasing in Python's date order, so pairwise distinct |
| WeekCalendar.ConsecutiveWeekdays | service/schedule_service.py:35 | the weekday advances by one per position, wrapping after Sunday |
| WeekCalendar.RollingWeekCoversOneOfEachWeekday | service/schedule_service.py:26-35 | the rolling window holds every weekday once, starting from today's weekday rather than from Monday |
| WeekCalendar.WeekdaysDiffer | service/schedule_service.py:26-35 | two dates of a run of consecutive dates fewer than seven positions apart have different weekdays |
| WeekCalendar.WeekdayAt | service/schedule_service.py:35 | the weekday at position `i` of consecutive dates is the first weekday plus `i`, modulo 7 |
| WeekCalendar.ShiftTo | service/schedule_service.py:35 | how many days after one weekday the next occurrence of another comes, in 0..6 |
| Ordering.StrLeqTotal | db/queries.py:36 | the string order used for `slot` is total |
| Ordering.KeyLeqTotal | db/queries.py:36 | the `(date, slot)` order is total |
| Ordering.EveningBeforeMorning | db/queries.py:36 | `ORDER BY date, slot` lists the `"evening"` event of a day before its `"morning"` event |
| Ordering.Insert | db/queries.py:36 | inserting into a sorted sequence keeps it sorted and adds exactly that element |
| Ordering.SortBy | db/queries.py:36 | the sorted rows are in key order and are a permutation of the input |
| Ordering.SortByMembers | db/queries.py:36 | sorting keeps exactly the rows it was given |
| Tokens.MakeToken | flows/participation.py:34 | `f"{tag}\|{value}"` has the bar right after the tag |
| Tokens.SplitToken | flows/participation.py:53 | `_, x = data.split("\|")` succeeds exactly when the data holds one bar, and then gives back the two parts; otherwise it raises `ValueError` |
| Tokens.FirstIndex | flows/participation.py:53 | the position of the first bar |
| Tokens.SplitMakeToken | flows/participation.py:34-53 | a token built from a tag and a value without bars splits back into that tag and value |
| Tokens.NoBarInDecimal | flows/participation.py:62 | `str(id)` holds no bar |
| Tokens.NoBarInIso | flows/participation.py:34 | an ISO date holds no bar |
| Tokens.TagsHaveNoBar | flows/participation.py:34 | none of the button tags holds a bar |
| Tokens.IdTokenRoundTrip | flows/participation.py:62-78 | `chooseevent\|{id}` splits and converts with `int` back to the same id |
| Tokens.DateTokenRoundTrip | flows/participation.py:34-54 | `chooseday\|{iso}` splits back to the ISO string, which parses to the same date |
| Tokens.DateTokenInjective | flows/participation.py:34 | two `chooseday\|<iso>` tokens are equal only for the same date |
| Defaults.WeekdayName | service/schedule_service.py:35 | `WEEKDAY_RU[w]` is defined on 0..6 and is a key of the times table, with both slots |
| Defaults.WeekdayNamesAreTimeKeys | service/schedule_service.py:10-22 | every weekday name of a revision is a key of that revision's times table, with both slots |
| Defaults.DefaultTime | service/schedule_service.py:42 | `DEFAULT_EVENT_TIMES[WEEKDAY_RU[d.weekday()]][slot]` never raises `KeyError` and is an `HH:MM` time |
| Defaults.DefaultTimesAreClockTimes | service/schedule_service.py:14-22 | every entry of both times tables is an `HH:MM` time |
| Defaults.LayeredTimesAreClockTimes | service/schedule_service.py:14-22 | the layered table has both slots for every weekday name, each an `HH:MM` time |
| Defaults.LegacyTimesAreClockTimes | bot.py:58-66 | the older table has both slots for every weekday name, each an `HH:MM` time |
| Defaults.MondayTimes | service/schedule_service.py:15 | both copies name weekday 0 `Понедельник` and give it the same `HH:MM` times |
| Defaults.TuesdayTimes | service/schedule_service.py:16 | both copies name weekday 1 `Вторник` and give it the same `HH:MM` times |
| Defaults.WednesdayTimes | service/schedule_service.py:17 | both copies name weekday 2 `Среда` and give it the same `HH:MM` times |
| Defaults.ThursdayTimes | bot.py:62 | both copies name weekday 3 `Четверг`; mornings agree, evenings differ (19:30 against 19:00) |
| Defaults.FridayTimes | bot.py:63 | both copies name weekday 4 `Пятница`; mornings agree, evenings differ (19:00 against 17:30) |
| Defaults.SaturdayTimes | service/schedule_service.py:20 | both copies name weekday 5 `Суббота` and give it the same `HH:MM` times |
| Defaults.SundayTimes | bot.py:37 | the copies spell Sunday differently (`Воскресенье`, `Воскресение`), and each spelling is the key of the same times in its own table |
| Defaults.DefaultName | service/schedule_service.py:23 | `DEFAULT_EVENT_NAMES[slot]` is defined for both slots and differs between them |
| Defaults.MonthName | utils/formatting.py:14-17 | `MONTH_RU[m]` is a three-letter abbreviation for each month |
| Defaults.RevisionsAgreeExceptThursdayFridayEvening | bot.py:58-66 | the default time of a date differs between the revisions exactly on Thursday and Friday evenings |
| Defaults.TimesAgree | bot.py:58-66 | read through their weekday tables, the two times tables differ exactly on the evenings of weekdays 3 and 4 |
| Defaults.DefaultRolesDistinct | service/schedule_service.py:24 | the three default role names are distinct |
| Db.MaxOf | db_setup.py:25 | the largest id of a non-empty table is one of its ids and no id exceeds it |
| Db.NextId | db_setup.py:33 | the id SQLite gives a new row is above every existing id, and is 1 or one more than an existing id |
| Db.NextIdAfterAppend | db_setup.py:33 | after a row with the next id is added, the next id is one higher |
| Db.NextIdReusesDeletedMaximum | db_setup.py:44 | ids are reused: once the row with the largest id is deleted, the next row gets that id again |
| Db.RoleById | bot.py:317 | `query(Role).filter_by(id=…).first()` finds a role with that id, or `None` exactly when there is none |
| Db.RoleByName | db/queries.py:54 | `filter_by(name=…).first()` finds a role of that name, or `None` exactly when there is none |
| Db.RoleByNameAppend | db/queries.py:54 | rows added at the end never change what a name that is already present resolves to |
| Db.AddRoleIfMissing | db/queries.py:53-59 | `get_or_create_role`: afterwards the name resolves; an existing name adds nothing; otherwise one row is appended; names that resolved keep their role; ids stay unique |
| Db.AddRolesIfMissing | service/schedule_service.py:44-46 | after the calls for each default role every name resolves, nothing is created when all existed, at most one row per name is appended, and earlier rows are kept |
| Db.AddRolesStep | service/schedule_service.py:44-46 | one more `get_or_create_role` call keeps all the promises of the calls before it |
| Db.AddRolesStepNamed | service/schedule_service.py:44-46 | after the last call every name resolves, and nothing was added if all names resolved before |
| Db.NamedAfterAdd | service/schedule_service.py:44-46 | a name resolved before a `get_or_create_role` call still resolves after it |
| Db.NamedPrefix | service/schedule_service.py:44-46 | when all names resolve, so do all but the last |
| Db.AddRolesIdempotent | db/queries.py:53-59 | calling `get_or_create_role` again for the same names creates nothing more |
| Db.RoleIdsFor | service/schedule_service.py:44-46 | the role ids linked to a new event, one per default role name |
| Db.ToParticipationDto | db/queries.py:10-15 | `to_participation_dto` keeps id and username, and has a role exactly when the participation has one, with that role's id and name |
| Db.ToEventDto | db/queries.py:17-26 | `to_event_dto` keeps id, slot, name and time, writes the date in a form that reads back as the same date, and keeps the roles and participations, in order |
| Db.RoleDtos | db/queries.py:24 | one role DTO per linked role, with the same id and name, in order |
| Db.PartDtos | db/queries.py:25 | one participation DTO per loaded participation, in order |
| Db.EventRoles | db_setup.py:39 | an event's `roles` relationship holds only role rows of the table, at most one per link |
| Db.PartsOfEvent | db_setup.py:40 | an event's `participations` relationship holds exactly the participation rows with its id |
| Db.EventsOn | db/queries.py:35 | `filter(Event.date.in_(dates))` keeps exactly the events dated on one of the dates |
| Db.SelectedEvents | db/queries.py:29-38 | the selected rows are exactly the events on the dates, as a permutation of the filtered rows, ordered by `(date, slot)` |
| Db.EventsForDates | db/queries.py:28-39 | `get_events_for_dates` gives one DTO per selected row, in the query's order |
| Db.FindEvent | db/queries.py:48-49 | `filter_by(id=…).first()` finds an event with that id, or `None` exactly when no event has it |
| Db.EventById | db/queries.py:41-51 | `get_event_by_id` is `None` exactly when no event has the id; otherwise it is the DTO of an event with that id |
| Db.JoinEvents | flows/cancellation.py:25-27 | the inner join pairs each participation whose event exists with that event, and drops the others |
| Db.UserParts | flows/cancellation.py:28-31 | the filter keeps exactly the joined rows of the user, dated on or after the given date when there is one |
| Db.UserPartsByDate | flows/cancellation.py:24-34 | the user's joined rows from the given date, and nothing else, ordered by `(date, slot)` |
| Db.ParticipationsForUsernameAsWritten | db/queries.py:61-72 | the query as written always fails: its filter reads the undefined name `today` |
| Db.ParticipationsForUsername | db/queries.py:61-72 | the query as intended gives one DTO per participation of the user from `after_date` on, in `(date, slot)` order |
| Db.ParticipationsForUsernameDiscrepancy | db/queries.py:67 | on a user with a participation on or after `after_date`, the intended query returns it while the written one raises |
| Store.WeekPairs | service/schedule_service.py:34-36 | the nested loop visits two pairs per date: exactly the dates of the week, each with both slots |
| Store.Missing | service/schedule_service.py:33-37 | the pairs the loop fills are exactly the visited pairs that no existing event occupies |
| Store.MissingAppend | service/schedule_service.py:37 | one more visited pair is missing exactly when no existing event occupies it |
| Store.NewEventsAppend | service/schedule_service.py:38-47 | one more missing pair adds one default event, with the next id, at the end |
| Store.NewEventsOne | service/schedule_service.py:38-43 | a single missing pair gives one event with the default name and the default time of its weekday |
| Store.NewEventAt | service/schedule_service.py:38-43 | the k-th new event has id `firstId + k` and the date and slot of the k-th missing pair |
| Store.NewEventFromPair | service/schedule_service.py:38-43 | every new event takes its date and slot from one of the missing pairs |
| Store.MissingMember | service/schedule_service.py:37 | a missing pair is a visited pair that no existing event occupies |
| Store.MaterialisedWeekCovered | service/schedule_service.py:30-48 | after `ensure_week_events` every (date, slot) of the week has an event |
| Store.MaterialiseIdempotent | service/schedule_service.py:30-48 | a second `ensure_week_events` in the same window finds nothing missing, so it creates nothing |
| Store.NewEventsOnlyInGaps | service/schedule_service.py:37 | a created event is dated in the week, has a slot, and never shares its (date, slot) with an event that existed before |
| Store.MissingAllWhenWeekEmpty | bot.py:110-111 | with no event dated in the week every pair of the week is missing, so the older revisions create all fourteen |
| Store.WithoutIds | flows/cancellation.py:102 | deleting by id keeps exactly the other participations, and ids stay unique |
| Store.WithoutUser | bot.py:385 | `filter_by(username=…).delete()` keeps exactly the other users' participations, and ids stay unique |
| Store.KeepOrDropHead | bot.py:385 | one step of such a filter: the first row is kept or dropped in front of the filtered rest |
| Store.EventIndex | flows/admin.py:70 | the position of the first event with the id, or `None` exactly when no event has it |
| Store.UniqueIdsAfterAppend | service/schedule_service.py:47 | a row added with the next id keeps ids unique |
| Store.RolesLoopStep | service/schedule_service.py:44-46 | one turn of the role loop extends the roles table and the collected role ids as the whole loop promises |
| Store.RolesPrefixStep | service/schedule_service.py:44-46 | the calls for one more name are the calls before it plus one `get_or_create_role` |
| Store.RoleIdsAppend | service/schedule_service.py:46 | collecting one more role appends its id |
| Store.KeptResolution | db/queries.py:53-59 | names resolved before a `get_or_create_role` call resolve to the same roles after it |
| Store.SlotsOkAppend | service/schedule_service.py:36 | every visited pair names one of the two slots |
| Store.ProgressSkip | service/schedule_service.py:37 | a pair that had an event before the loop leaves tables and ids as they were |
| Store.ProgressCreate | service/schedule_service.py:38-47 | a missing pair adds the next default event; the default roles exist from the first created event on |
| Store.WeekEnsuredCovers | service/schedule_service.py:30-48 | once the week is ensured every (date, slot) of it has an event, the old events are a prefix, and at most two events per date were added |
| Store.Database.constructor | db_setup.py:63-64 | a new database has empty tables and no notifications |
| Store.Database.GetOrCreateRole | db/queries.py:53-59 | returns the first role of that name, creating it when there is none; the table follows `AddRoleIfMissing`; other tables unchanged |
| Store.Database.GetOrCreateRoles | service/schedule_service.py:44-46 | the role loop leaves the roles table as `AddRolesIfMissing` says and returns the roles' ids in name order |
| Store.Database.AttachDefaultRoles | service/schedule_service.py:44-46 | every default role exists afterwards, and the event gets their ids |
| Store.Database.CreateDefaultEvent | service/schedule_service.py:38-47 | appends one event with the next id, the default name and time, and the default roles, and keeps ids unique |
| Store.Database.AddEvent | service/schedule_service.py:47 | `session.add(event)` appends the row and raises the next id by one |
| Store.Database.CreateIfMissing | service/schedule_service.py:37-47 | the loop body creates an event for the pair exactly when none existed before the loop |
| Store.Database.CreateMissingOnDay | service/schedule_service.py:36-47 | the inner loop handles the morning, then the evening, of one date |
| Store.Database.CreateMissingEvents | service/schedule_service.py:34-47 | the nested loop appends one default event per missing pair, in loop order, creating the default roles only when something is created |
| Store.Database.EnsureWeekEvents | service/schedule_service.py:30-48 | afterwards every (date, slot) of today's rolling week has an event; existing events are kept as they are; at most 14 are added |
| Store.Database.EnsureWeekAllOrNothing | bot.py:108-125 | with no event dated in the Monday-to-Sunday week all 14 default events and the default roles are created; with one, nothing changes |
| Store.Database.EnsureWeekExistingRoles | bot_app/handlers.py:47-64 | as in bot.py, but a missing default role makes the flush fail, nothing is written, and the handler raises |
| Store.Database.Signup | flows/participation.py:112-128 | a participation is inserted, with the next id, exactly when the same user, event and role is not recorded yet; afterwards it is recorded |
| Store.Database.DeleteParticipation | flows/cancellation.py:91-103 | deletes the participation with the id, and nothing else |
| Store.Database.DeleteByUsername | bot.py:385-386 | deletes all the user's participations, and nothing else |
| Store.Database.SetEventTime | flows/admin.py:69-73 | sets the time of the first event with the id, and reports whether there was one; with no id or no such event nothing changes |
| Store.Database.Notify | flows/participation.py:135 | `notify_admins` appends the text to the notification log and changes no table |
| Schedule.AddBlock | utils/formatting.py:66-68 | a day's header and slot lines are added exactly when it has slot lines |
| Schedule.ConcatAppend | utils/formatting.py:66-68 | extending the lines by one more block appends that block |
| Schedule.ConcatStep | utils/formatting.py:49-68 | the lines after `j + 1` days are those after `j` days followed by day `j`'s block |
| Schedule.ConcatEmptyIff | utils/formatting.py:69 | the joined lines are empty exactly when every day's block is |
| Schedule.DtosOn | utils/formatting.py:43-46 | `events_by_date[d]` holds exactly the DTOs dated `d` |
| Schedule.FirstInSlot | utils/formatting.py:51 | the first DTO of the slot in the bucket, and `None` exactly when no DTO of the bucket has that slot |
| Schedule.Shown | utils/formatting.py:52-65 | a slot contributes a line exactly when the bucket has an event in it |
| Schedule.SlotLinesOfDay | utils/formatting.py:51 | a day lists its morning line, then its evening line |
| Schedule.DayBlocks | utils/formatting.py:49-68 | one block per date of the week |
| Schedule.ScheduleText | utils/formatting.py:40-69 | a text exactly when every DTO's date parses and lies in the week; otherwise `events_by_date[d]` raises |
| Schedule.GroupByDate | utils/formatting.py:43-46 | the grouping loop succeeds exactly when every date is in the week; its keys are the week and each bucket is `DtosOn` |
| Schedule.GroupStep | utils/formatting.py:46 | appending the next DTO to its date's bucket keeps the grouping |
| Schedule.DtosOnStep | utils/formatting.py:44-46 | one more DTO grows exactly its own date's bucket |
| Schedule.RenderDay | utils/formatting.py:50-65 | the inner loop gives the morning line, then the evening line |
| Schedule.RenderWeek | utils/formatting.py:49-68 | the outer loop gives each date's block in week order |
| Schedule.BuildScheduleText | utils/formatting.py:40-69 | the whole function, proved against `ScheduleText` |
| Schedule.WeekEventsRender | service/schedule_service.py:50-52 | the DTOs `get_week_schedule` fetches always render without raising |
| Schedule.SlotLinesEmptyIff | utils/formatting.py:50-65 | a day has no slot lines exactly when none of its DTOs is in the morning or evening |
| Schedule.WeekLinesEmptyIff | utils/formatting.py:69 | the week's lines are empty exactly when every day's are |
| Schedule.NoEventsMessageIff | utils/formatting.py:69 | the "no events" message appears exactly when no DTO is in the morning or evening slot |
| Schedule.SlottedDtoShows | utils/formatting.py:66-68 | a day with a morning or evening DTO has a block |
| Schedule.UnslottedDayQuiet | utils/formatting.py:66 | with no slotted DTO, no day has a block |
| Schedule.FirstInSlotAppend | utils/formatting.py:51 | a DTO after one of the same slot does not change any slot's first DTO |
| Schedule.FirstInSlotAppendFound | utils/formatting.py:51 | a slot that already has a first DTO keeps it |
| Schedule.FirstInSlotAppendMiss | utils/formatting.py:51 | a slot with no DTO still has none after a DTO of another slot |
| Schedule.SameFirstsSameLines | utils/formatting.py:50-65 | buckets with the same first morning and evening DTOs render the same |
| Schedule.DayLinesAppend | utils/formatting.py:51 | a DTO whose slot on its date is already taken changes no day's lines |
| Schedule.BucketAppend | utils/formatting.py:46 | a bucket grows by a DTO exactly when the DTO is dated that day |
| Schedule.SlotInBucket | utils/formatting.py:43-46 | the bucket of a DTO's date holds a DTO of its slot |
| Schedule.LaterDuplicateIgnored | utils/formatting.py:51 | a later DTO of an already-taken (date, slot) does not change the text: the first one wins |
| Schedule.Latest | bot.py:104-105 | the last row of that date and slot, and `None` exactly when there is none |
| Schedule.LatestIsLast | bot.py:105 | a row with no later row of its date and slot is the one the dictionary keeps: the last one wins |
| Schedule.LatestStep | bot.py:105 | one more row replaces the entry for its own date and slot only |
| Schedule.GetEventsForWeek | bot.py:95-106 | the dictionary's keys are the week's dates, and each day maps exactly the slots that have an event to the last such event |
| Schedule.PlaceRow | bot.py:105 | `schedule[date][slot] = event` keeps the keys and makes every lookup the latest row so far |
| Schedule.LookupAll | bot.py:103-106 | a dictionary whose lookups are the latest rows holds exactly those rows |
| Schedule.LegacyShown | bot.py:162-180 | a slot gets a line exactly when the day's dictionary has it |
| Schedule.LegacyDayBlocks | bot.py:159-183 | one block per date of the week |
| Schedule.LegacyDayShown | bot.py:181 | a day gets a block exactly when it has a morning or an evening event |
| Schedule.LegacyRenderDay | bot.py:160-180 | the inner loop, proved against `LegacySlotLines` |
| Schedule.LegacyBuildScheduleText | bot.py:157-184 | the whole function, proved against `LegacyScheduleText` |
| Render.SlotLabel | utils/formatting.py:23-24 | `get_slot_label`: the slot's Russian name, then the time in brackets |
| Render.StrictSlotLabel | bot.py:245 | `SLOT_RU[slot]` fails exactly on a slot with no Russian name, and otherwise agrees with `get_slot_label` |
| Render.SlotLabelsDistinguishSlots | utils/formatting.py:18-24 | the morning and evening buttons of a day differ whatever their times |
| Render.RuDateOfIso | utils/formatting.py:26-34 | `ru_date_string` of a string gives a header exactly when `fromisoformat` parses it |
| Render.RuDateOfIsoAgrees | utils/formatting.py:26-34 | a date and its ISO string give the same header |
| Render.WeekdayNamesDistinct | utils/formatting.py:5-13 | different weekdays have different, comma-free names in both revisions' tables |
| Render.WeekdayNameShape | bot.py:30-38 | every weekday name is non-empty and comma-free, with a length and first letter unique to its weekday |
| Render.TableNameShape | utils/formatting.py:5-13 | the same, read off each revision's table |
| Render.CommaSeparatedDiffer | utils/formatting.py:33 | texts that begin with different comma-free names followed by ", " differ |
| Render.WeekdaysApart | utils/formatting.py:33 | positions less than seven days apart have different weekdays |
| Render.RuDateStringsDistinctInWeek | service/schedule_service.py:26-28 | the seven dates of a week get seven different headers |
| Render.NoticesDiffer | flows/participation.py:132-134 | the signup notification and the cancellation notification (flows/cancellation.py:99-101) never coincide |
| Render.Capitalize | flows/admin.py:31 | `str.capitalize` with ASCII case mapping only: the first letter upper-cased, the others lower-cased, the length kept; the only inputs are "morning" and "evening", which it maps to "Morning" and "Evening" |
| Dialogue.UserData.constructor | flows/participation.py:26-28 | `context.user_data` starts with none of the keys the handlers store |
| Dialogue.ParticipationRoute | flows/participation.py:142-161 | from the handler lists: the cancel word always cancels, so does the "cancel" button in each of the three states, and any other text message is ignored |
| Dialogue.CancellationRoute | flows/cancellation.py:110-119 | the cancel word always cancels; in the menu the "cancel" button cancels and "cancelall" goes to `cancel_participation` |
| Dialogue.FirstMatch | flows/admin.py:82-93 | a handler list is tried in order: the result is the handler of the first entry that accepts the update, and nothing exactly when none does |
| Dialogue.DataIgnoresText | flows/participation.py:147-159 | a `CallbackQueryHandler` pattern never accepts a text message |
| Dialogue.DataListIgnoresText | flows/participation.py:147-159 | a state whose handlers are all button handlers leaves every text message to the fallbacks |
| Dialogue.CancelWordBecomesTime | flows/admin.py:90-92 | derived from the handler lists and the state-then-fallback dispatch: the cancel word typed at the time prompt passes `TEXT & ~COMMAND` and goes to `admin_set_event_time`, while in every other state it reaches the fallback and cancels |
| Dialogue.AdminRouteFixed | flows/admin.py:82-93 | with the time prompt's filter excluding the cancel word, the same dispatch cancels on the cancel word in every state |
| Dialogue.AdminRouteFixedDiffers | flows/admin.py:90-92 | the corrected conversation differs from the written one exactly on the cancel word in `SET_EVENT_TIME`; every other update in every state is routed as before |
| Dialogue.LegacyParticipationRoute | bot.py:505-515 | no button press reaches the cancel handler: only the `/cancel` command does |
| Dialogue.LegacyCancellationRoute | bot.py:518-524 | with no fallbacks, no text message is handled in the cancel menu |
| Dialogue.LegacyCancelCommandAlwaysCancels | bot.py:514 | in the older revisions `/cancel` cancels in every state of both conversations (bot.py:540 for the admin one) |
| ParticipationFlow.LastDto | flows/participation.py:26-28 | the last DTO with that date and slot, and `None` exactly when there is none |
| ParticipationFlow.LastDtoStep | flows/participation.py:28 | one more DTO replaces the entry for its own date and slot only |
| ParticipationFlow.BuildDaySchedule | flows/participation.py:26-28 | the dictionary has a key per DTO date, and each lookup gives the last DTO of that date and slot |
| ParticipationFlow.DayButtons | flows/participation.py:30-34 | at most one button per date of the week (which dates get one: `DayButtonsIff`) |
| ParticipationFlow.DayButtonOffered | flows/participation.py:30-34 | a date of the week with a morning or an evening DTO has its button in the keyboard |
| ParticipationFlow.SlottedDtoButton | flows/participation.py:31-33 | a date with a morning or evening DTO gets a button |
| ParticipationFlow.ButtonSlottedDto | flows/participation.py:31-33 | a date gets a button only when it has a morning or evening DTO |
| ParticipationFlow.DayButtonsIff | flows/participation.py:30-34 | a date gets a `chooseday\|<iso>` button exactly when it is a date of the week and some DTO is dated on it in the morning or the evening slot |
| ParticipationFlow.DayKeyboard | flows/participation.py:30-34 | the loop over the week offers, in order, each date with a morning or an evening event, labelled by `ru_date_string` and tagged `chooseday\|<iso>` |
| ParticipationFlow.DayButtonsStep | flows/participation.py:30-34 | one more date appends its own button, or nothing |
| ParticipationFlow.SlotListed | flows/participation.py:26-31 | a date of the week with an event in a slot has a DTO of that slot in the dictionary |
| ParticipationFlow.WeekDtoAt | db/queries.py:28-39 | the event at a (date, slot) of the week is loaded into one of `get_events_for_dates`' DTOs |
| ParticipationFlow.LastDtoFinds | flows/participation.py:28 | a DTO with that date and slot makes the lookup succeed |
| ParticipationFlow.DayButtonsAll | flows/participation.py:30-34 | when every date has an event, every date gets a button |
| ParticipationFlow.EnsuredWeekOffersEveryDay | flows/participation.py:24-34 | after `ensure_week_events`, all seven days of the week are offered |
| ParticipationFlow.SlotButtonsOfDay | flows/participation.py:58 | a day's event buttons are its morning button, then its evening button |
| ParticipationFlow.EventKeyboard | flows/participation.py:57-62 | the loop over the slots, proved against `SlotButtons` |
| ParticipationFlow.IdTokensParse | flows/participation.py:77-78 | a button made from an id gives that id back through `split("\|")` and `int` |
| ParticipationFlow.WeekDtoInTable | db/queries.py:28-39 | every DTO of the week comes from an event row of the table |
| ParticipationFlow.SlotButtonIds | flows/participation.py:59-62 | each event button of a day carries the id of that day's morning or evening DTO |
| ParticipationFlow.EventButtonFindsEvent | flows/participation.py:80 | every event button of a day names an event `get_event_by_id` finds, so "Событие не найдено" is not reached from a fresh menu |
| ParticipationFlow.DayButtonFrom | flows/participation.py:30-34 | every day button belongs to a date of the week |
| ParticipationFlow.DayButtonLeadsToEvents | flows/participation.py:53-64 | every date the first step offers leads to a second step with at least one event, never to "Нет событий на этот день" |
| ParticipationFlow.RoleButtons | flows/participation.py:90-93 | one button per role of the event, in order, with the role's name and `chooserole\|<id>` |
| ParticipationFlow.ReadSignup | flows/participation.py:101-111 | `choose_role` writes exactly when the data is not "cancel", the user has a username, an event was chosen and the data carries an integer; otherwise it cancels, answers, or raises |
| ParticipationFlow.RoleNameIn | flows/participation.py:131 | the name of a role of the event with that id, and `None` exactly when the event has no such role |
| ParticipationFlow.OfferDays | flows/participation.py:26-48 | with no date to offer the conversation ends with "Нет событий на этой неделе"; otherwise the days and "Отмена" are offered and the dictionary is stored |
| ParticipationFlow.Participate | flows/participation.py:23-48 | the week is ensured, no participation or notification changes, and the dates with an event of the week's DTOs are offered |
| ParticipationFlow.ChooseDay | flows/participation.py:50-72 | "cancel" cancels; a malformed button raises; otherwise the date is stored and its events are offered, or the conversation ends when it has none |
| ParticipationFlow.ChooseEvent | flows/participation.py:74-98 | "cancel" cancels; a non-integer id raises; otherwise the id is stored, and a missing event or one with no roles ends the conversation, else its roles are offered |
| ParticipationFlow.ChooseRole | flows/participation.py:100-140 | a new (user, event, role) is inserted with the next id and the signup notice is logged; an existing one changes nothing; events and roles are untouched; no duplicate is ever created |
| ParticipationFlow.ScheduleHandlerAsWritten | flows/participation.py:16-21 | as written, the call with `markdown=False` raises after the week is ensured, so no schedule is sent |
| ParticipationFlow.ScheduleHandler | flows/participation.py:16-21 | with the call corrected, the text of the week's schedule is always sent |
| CancellationFlow.PartById | flows/cancellation.py:92 | the first participation with the id, and `None` exactly when there is none |
| CancellationFlow.PartByIdUnique | flows/cancellation.py:92 | with unique ids, the lookup finds the one participation with that id |
| CancellationFlow.CancelButtons | flows/cancellation.py:40-46 | one button per participation, in order, with its date, time and role and `cancelpart\|<id>` |
| CancellationFlow.CancelKeyboard | flows/cancellation.py:39-46 | the loop, proved against `CancelButtons` |
| CancellationFlow.ShowCancelMenu | flows/cancellation.py:16-53 | without a username the conversation ends; with no participation dated today or later it ends; otherwise one button per such participation, by date and slot, then "cancel all" and "Отмена" |
| CancellationFlow.MenuButtonCancelsThatRecord | flows/cancellation.py:46 | each menu button's token names exactly the participation it shows, and `cancel_participation` finds that one |
| CancellationFlow.CancelAllRows | flows/cancellation.py:63-71 | exactly the acting user's participations whose event is dated today or later |
| CancellationFlow.JoinedIds | flows/cancellation.py:80-81 | one id per selected participation |
| CancellationFlow.CancelNotices | flows/cancellation.py:72-79 | one notification per selected participation |
| CancellationFlow.WithoutIdsAppend | flows/cancellation.py:80-81 | deleting ids one at a time is deleting them all at once |
| CancellationFlow.WithoutNoIds | flows/cancellation.py:80-81 | deleting no id changes nothing |
| CancellationFlow.WithoutIdsConcat | flows/cancellation.py:80-81 | deleting from a concatenation deletes from each part |
| CancellationFlow.CancelAllRemovesExactlyUpcoming | flows/cancellation.py:60-82 | a participation is removed by cancel-all exactly when it is the acting user's and its event is dated today or later |
| CancellationFlow.CancelAllMessages | flows/cancellation.py:72-79 | the message loop, proved against `CancelNotices` |
| CancellationFlow.DeleteAll | flows/cancellation.py:80-82 | the delete loop removes exactly the selected participations |
| CancellationFlow.NotifyAll | flows/cancellation.py:84-85 | the notification loop appends the messages in order and changes no table |
| CancellationFlow.CancelAll | flows/cancellation.py:60-88 | deletes the user's upcoming participations and logs one notice per deleted participation |
| CancellationFlow.CancelOne | flows/cancellation.py:89-108 | deletes the participation with the id whoever it belongs to; an unknown id ends with no change; a non-integer id or a missing event raises with no change |
| CancellationFlow.CancelParticipation | flows/cancellation.py:55-108 | "cancel" changes nothing; "cancelall" deletes the user's upcoming participations; otherwise one participation, or none when the handler stops |
| CancellationFlow.PartIdOf | flows/cancellation.py:90-92 | the participation a token names, which is in the table and carries the token's id |
| AdminFlow.FirstDtoAt | flows/admin.py:22-29 | the first DTO whose date parses to the date and whose slot matches, and `None` exactly when there is none |
| AdminFlow.FirstDtoAtStep | flows/admin.py:22-29 | the first match of the tail is the first match of the whole when the head does not match |
| AdminFlow.DayManageButtons | flows/admin.py:21-32 | at most two buttons per date |
| AdminFlow.ManageButtons | flows/admin.py:20-32 | at most two buttons per date of the week (which events get one: `ManageButtonsIff`) |
| AdminFlow.ManageButtonOffered | flows/admin.py:20-32 | the first DTO at a (date, slot) of the week has its button in the menu, and that button carries `manageevent\|<its id>` |
| AdminFlow.ListedIdOffered | flows/admin.py:20-32 | an event id that is the first DTO of a (date, slot) of the week has a button carrying it |
| AdminFlow.OfferedIdListed | flows/admin.py:20-32 | every menu button carries the id of the first DTO of a (date, slot) of the week |
| AdminFlow.ManageButtonsIff | flows/admin.py:20-32 | the menu has a button carrying an id exactly when that id is the first DTO of the morning or evening slot of a date of the week |
| AdminFlow.SlotsDoneStep | flows/admin.py:21 | the inner loop's buttons after one more slot |
| AdminFlow.AddManageButton | flows/admin.py:22-32 | the loop body adds the button of (date, slot) when an event is there, labelled with the date, the capitalised slot and the time |
| AdminFlow.ManageButtonsStep | flows/admin.py:20 | the outer loop's buttons after one more date |
| AdminFlow.ManageKeyboard | flows/admin.py:19-32 | the outer loop, proved against `ManageButtons` |
| AdminFlow.AddDayButtons | flows/admin.py:21-32 | the inner loop, proved against `DayManageButtons` |
| AdminFlow.SlotHasDto | flows/admin.py:17-29 | a (date, slot) of the week with an event in the table has a DTO the search finds |
| AdminFlow.ManageButtonsAll | flows/admin.py:20-32 | when every (date, slot) has a DTO, every one gets a button |
| AdminFlow.EnsuredWeekListsEverySlot | flows/admin.py:17-32 | after `ensure_week_events` the menu lists all fourteen events of the week |
| AdminFlow.ManageButtonFrom | flows/admin.py:30-32 | every menu button carries `manageevent\|<id>` of a morning or evening DTO dated in the week |
| AdminFlow.ManageTokenRoutes | flows/admin.py:84-85 | a `manageevent\|<id>` button goes to `admin_manage_event_select`, which reads the id back |
| AdminFlow.WeekDtoRow | db/queries.py:28-39 | every DTO of the week comes from an event row dated in the week, with its id and slot |
| AdminFlow.MenuButtonNamesWeekEvent | flows/admin.py:32 | every menu button names an event of the table; with unique ids it is the week's event it shows |
| AdminFlow.RetimeOnlyThatEvent | flows/admin.py:70-72 | setting the time of the first event with the id changes that event's time and no other event as seen by id |
| AdminFlow.IndexIffFound | flows/admin.py:70 | the index search and the lookup by id agree on whether an event has the id |
| AdminFlow.Admin | flows/admin.py:16-39 | any user gets the menu: the week is ensured and all fourteen events are offered, then "Отмена" |
| AdminFlow.AdminChecked | bot.py:419-423 | a user not in `ADMIN_IDS` is turned away and nothing is written; an administrator gets the menu of `admin` |
| AdminFlow.SelectEvent | flows/admin.py:41-54 | "cancel" cancels; a non-integer id raises; otherwise the id is stored and "edittime" and "Отмена" are offered |
| AdminFlow.EditChoice | flows/admin.py:56-64 | "edittime" asks for the time; anything else ends the edit; nothing raises |
| AdminFlow.EditButtonsLead | flows/admin.py:47-48 | the two buttons of the edit step are routed to `admin_edit_event_choice` and lead to the time prompt and to the end of the edit |
| AdminFlow.SetTime | flows/admin.py:66-78 | the stripped text becomes the time of the first event with the stored id, and the answer says whether there was one; no other table changes |
| AdminFlow.SetTimeOutcome | flows/admin.py:70-73 | the change seen by id: exactly the event with that id gets the new time, every other lookup is unchanged, and with no such event nothing changes |
| LegacyAdmin.ManageButtons | bot.py:429-434 | at most two buttons per date of the week (which events get one: `ManageButtonsIff`) |
| LegacyAdmin.ManageButtonOffered | bot.py:428-434 | the event the dictionary holds at a (date, slot) of the week has its button in the menu |
| LegacyAdmin.ManageButtonsIff | bot.py:428-434 | the menu has a button carrying an id exactly when the dictionary holds an event with that id in the morning or evening slot of a date of the week |
| LegacyAdmin.AddManageButton | bot.py:430-434 | the loop body adds the button of the event the dictionary holds at (date, slot), if any |
| LegacyAdmin.AddDayButtons | bot.py:429-434 | the inner loop, proved against `DayManageButtons` |
| LegacyAdmin.ManageKeyboard | bot.py:428-434 | the outer loop, proved against `ManageButtons` |
| LegacyAdmin.ManageButtonsAll | bot.py:428-434 | when every (date, slot) is in the dictionary, every one gets a button |
| LegacyAdmin.FilledWeekListsEverySlot | bot.py:425-434 | when the week was empty and has been filled, the menu lists its fourteen events |
| LegacyAdmin.ManageButtonFrom | bot.py:433-434 | every menu button carries `manageevent\|<id>` of an event the dictionary holds for a date of the week |
| LegacyAdmin.MenuButtonNamesWeekEvent | bot.py:434 | every menu button is routed to the select step and names an event of the table |
| LegacyAdmin.ManageTokenRoutes | bot.py:533 | a `manageevent\|<id>` button goes to the select handler, which reads the id back |
| LegacyAdmin.Admin | bot.py:419-441 | a user not in `ADMIN_IDS` is turned away with nothing written; otherwise the week is filled and its events are offered, with no cancel button; the split revision raises when the fill fails |
| LegacyAdmin.SelectEvent | bot.py:443-456 | a non-integer id raises; otherwise the id is stored and "edittime" and "canceladmin" are offered |
| LegacyAdmin.EditButtonsLead | bot.py:536 | the two buttons of the older edit step lead to the time prompt and to the end of the edit |
| LegacyCancellation.AllSome | bot.py:350-356 | a loop that raises at the first missing value: all values exactly when none is missing |
| LegacyCancellation.AllSomeStep | bot.py:350 | one more present value extends the result |
| LegacyCancellation.AllSomeMapStep | bot.py:350 | the same for a mapped prefix |
| LegacyCancellation.CancelButtonOf | bot.py:351-356 | the button of one participation exists exactly when its slot has a Russian name |
| LegacyCancellation.CancelButtons | bot.py:349-356 | all the buttons, in order, exactly when every slot has a Russian name; otherwise `SLOT_RU` raises |
| LegacyCancellation.CancelButtonsStep | bot.py:350-356 | one more participation appends its button |
| LegacyCancellation.CancelKeyboard | bot.py:349-356 | the loop, proved against `CancelButtons` |
| LegacyCancellation.ShowCancelMenu | bot.py:330-364 | without a username the conversation ends; otherwise every participation of the user whose event exists, whatever its date, then "cancel all" and no "Отмена"; a slot with no Russian name raises |
| LegacyCancellation.MenuButtonCancelsThatRecord | bot.py:356 | each menu button is routed to `cancel_participation` and names exactly the participation it shows |
| LegacyCancellation.CancelTokenRoutes | bot.py:521 | a `cancelpart\|<id>` button goes to `cancel_participation`, which reads the id back |
| LegacyCancellation.CancelAllRows | bot.py:370-375 | exactly the user's participations whose event exists, whatever their date |
| LegacyCancellation.CancelNoticeOf | bot.py:378-384 | the notice of one participation exists exactly when its slot has a Russian name |
| LegacyCancellation.CancelNotices | bot.py:377-384 | all the notices, in order, exactly when every slot has a Russian name |
| LegacyCancellation.CancelNoticesStep | bot.py:377-384 | one more participation appends its notice |
| LegacyCancellation.CancelAllMessages | bot.py:376-384 | the message loop, proved against `CancelNotices` |
| LegacyCancellation.Remaining | bot.py:385 | exactly the participations of other users remain |
| LegacyCancellation.CancelAll | bot.py:367-393 | all the user's participations are deleted and one notice per participation with an event is logged; a slot with no Russian name raises before anything is deleted |
| LegacyCancellation.PastRecordOnlyLegacyRemoves | bot.py:373 | a participation dated before today is deleted by the older cancel-all and kept by the layered one (flows/cancellation.py:68) |
| LegacyCancellation.OrphanDeletedUnannounced | bot.py:385 | a participation whose event is gone is deleted by the older cancel-all but never announced |
| LegacyCancellation.CancelOne | bot.py:394-417 | deletes the participation with the id and logs a notice under its owner's name; an unknown id changes nothing; a bad token, a missing event or a slot with no Russian name raises with no change |
| LegacyCancellation.CancelParticipation | bot.py:366-417 | cancel-all on "cancelall", a single cancel otherwise |
| LegacyCancellation.SingleCancelNamesOwner | bot.py:406-409 | a single cancel of someone else's participation is announced under the owner's name |
| LegacyFlow.EnsureWeek | bot.py:108-125 | the monolith fills an empty Monday-to-Sunday week with fourteen default events, creating the roles; the split revision (bot_app/handlers.py:47-64) only reuses existing roles and fails, writing nothing, when one is missing; a week with an event is left alone |
| LegacyFlow.FilledWeekCovered | bot.py:110-124 | a week that was empty and has been filled has a morning and an evening event on each day |
| LegacyFlow.DayMapOf | bot.py:104-105 | each slot of a date holds the last of its rows |
| LegacyFlow.WeekMapOf | bot.py:103 | the dictionary has exactly the week's dates as keys |
| LegacyFlow.WeekMapIs | bot.py:95-106 | the loop of `get_events_for_week` builds exactly `WeekMapOf` |
| LegacyFlow.InWeekMap | bot.py:103-105 | a date of the week has a slot in the dictionary exactly when some event of the table is there |
| LegacyFlow.WeekMapRowInTable | bot.py:104-105 | every event the dictionary holds is a row of the table under its own date and slot |
| LegacyFlow.DayButtons | bot.py:214-219 | at most one button per date of the week (which dates get one: `DayButtonsIff`) |
| LegacyFlow.DayButtonOffered | bot.py:214-219 | a date of the week with a morning or an evening event in the dictionary has its button in the keyboard |
| LegacyFlow.DayButtonsIff | bot.py:214-219 | a date gets a `chooseday\|<iso>` button exactly when it is a date of the week and the dictionary holds a morning or an evening event for it |
| LegacyFlow.DayKeyboard | bot.py:214-219 | the loop over the week, proved against `DayButtons` |
| LegacyFlow.DayButtonsAll | bot.py:214-219 | when every date has an event, every date gets a button |
| LegacyFlow.FilledWeekOffersEveryDay | bot.py:211-219 | when the week was empty and has been filled, all its days are offered |
| LegacyFlow.OfferDays | bot.py:212-233 | with no date to offer the conversation ends; otherwise the days are offered, with no cancel button, and the dictionary is stored |
| LegacyFlow.WeekDays | bot.py:212-219 | `get_events_for_week` and the day buttons built from it |
| LegacyFlow.Participate | bot.py:209-233 | the week is filled and its days offered; in the split revision (bot_app/handlers.py:146-168) a failed fill raises before anything is read |
| LegacyFlow.EmptyWeekOffersEveryDay | bot.py:110-124 | with the monolith an empty week is filled, so all seven days are offered |
| LegacyFlow.SlotButtons | bot.py:241-246 | a day has no event buttons exactly when it has neither a morning nor an evening event |
| LegacyFlow.EventKeyboard | bot.py:241-246 | the loop over the slots, proved against `SlotButtons` |
| LegacyFlow.ChooseDay | bot.py:235-258 | an unparsable date raises; otherwise the date is stored and its events are offered; a date the stored dictionary lacks raises |
| LegacyFlow.DayButtonFrom | bot.py:214-219 | every day button belongs to a date of the week |
| LegacyFlow.DayButtonLeadsToEvents | bot.py:238-246 | every date offered leads, with the stored dictionary, to at least one event |
| LegacyFlow.RoleButtons | bot.py:276-279 | one button per role of the event, in order, with `chooserole\|<id>`; no cancel button |
| LegacyFlow.ChooseEvent | bot.py:260-285 | a bad token raises; otherwise the id is stored, and an unknown event or one without roles ends the conversation, else its roles are offered |
| LegacyFlow.ReadSignup | bot.py:288-296 | the older `choose_role` writes exactly when the user has a username, an event was chosen and the data carries an integer |
| LegacyFlow.When | bot.py:319 | the event's date and time text exists exactly when its slot has a Russian name |
| LegacyFlow.WhenOf | bot.py:315-319 | the text exists exactly when the event is found and its slot has a Russian name |
| LegacyFlow.RoleNameById | bot.py:316-320 | a role name exactly when some role of the whole table has the id |
| LegacyFlow.ChooseRole | bot.py:287-328 | a new (user, event, role) is inserted with the next id and the notice is logged; an existing one changes nothing; a missing event or unnamed slot raises after the insert; no duplicate is ever created |
| LegacyFlow.RoleButtonsSignUp | bot.py:277 | every role button is routed to the role step, which signs up for exactly that role |
| LegacyFlow.ScheduleHandler | bot.py:193-200 | the week is filled and the text of its dictionary is sent; in the split revision a failed fill sends nothing |

## Left out

- Telegram I/O: sending, editing and answering messages, keyboards as rendered, and `parse_mode` are not modelled. A handler's answer is its `Step`.
- `notify_admins` (shared/notifications.py, bot.py:150-155): the delivery to each administrator, and its swallowed errors, are not modelled. The model appends the text to `Database.log`.
- `send_schedule_this_week` (bot.py:202-207), sent after a signup or a cancellation in the older revisions: left out, because it only sends a text and changes nothing.
- `show_main_menu`, `start` and `user_menu_handler` (shared/main_menu.py, bot.py:133-148): they only build the reply keyboard.
- `cancel_handler` (shared/cancel.py:4-14, bot.py:484-487): modelled only as its outcome, the reply `Cancelled`, and has no member of its own.
- The clock: `datetime.today()` is a `today` parameter of every handler that reads it.
- `ADMIN_IDS`: membership is a boolean parameter of the handlers that check it.
- Sessions, commits and the ORM's identity map: each handler's writes form one step. Concurrent updates from several users are not modelled.
- The split revision's detached-instance errors: `db_connect` (db/db_client.py:7-20) commits with `expire_on_commit` left on and then closes the session, so a row read inside it cannot be read afterwards. As a result, in bot_app/handlers.py `choose_event` raises on `event.roles` for every event it finds. `show_cancel_participation_menu` raises on `p.event` whenever the user has a participation. `cancel_participation` raises on the same kind of read for every non-empty cancel-all and every participation it finds. `choose_role` raises on `event.date` after the participation is committed. `choose_day` raises on `event.time` (bot_app/handlers.py:180) of the dictionary `participate_handler` stored inside the session, for every date the menu offers, so the split revision never reaches its event step. The model gives the split revision the monolith's behaviour for these handlers, because the errors come from SQLAlchemy's session lifecycle, which is not modelled.
- Dates: years are limited to 1..9999, as in Python's `date`. Handlers that build a week require it to fit in that range (`WindowFits`). The `OverflowError` Python raises beyond it is not modelled.
- Free-form times: the time an administrator types is stored as any stripped string, as in the source. No `HH:MM` check is modelled, because there is none.
- The older `admin_edit_event_choice` and `admin_set_event_time` (bot.py:458-482, bot_app/handlers.py:387-411) have the same bodies as the layered ones. They are modelled once, by `AdminFlow.EditChoice` and `AdminFlow.SetTime`.
- The split revision's handlers are modelled only where they differ from the monolith's: the fill with existing roles, and the raise that follows a failed fill. Otherwise they share the `LegacyFlow` members, including where the detached-instance errors listed above make the split handler raise instead.
- `db_setup.py`'s engine and table creation: only the row shapes and the id rule (largest existing id plus one) are modelled.
- CancellationFlow.CancelParticipation: for a single cancel, it only states that one notice is logged. `CancellationFlow.CancelOne` states the notice's exact text.
- ParticipationFlow.DayButtons, LegacyFlow.DayButtons, AdminFlow.ManageButtons and LegacyAdmin.ManageButtons: their own contracts give only a bound on the number of buttons. Which dates or events get a button is stated by the `DayButtonsIff` and `ManageButtonsIff` lemmas beside them.
- Numerals.ParseInt: Python's `int()` also accepts surrounding whitespace (`" 5"`, `"5\n"`), `_` between digits (`"1_0"`) and non-ASCII decimal digits. The model raises on these. Only callback data the bot did not write can carry them, since every token it builds holds `str(id)` (`Tokens.IdTokenRoundTrip`).
- IsoDate.ParseIso: `datetime.fromisoformat`, which utils/formatting.py:30 and :45, flows/admin.py:26 and bot.py:238 call, also accepts date-times such as `"2024-05-01T10:00"`. The model rejects these. Only callback data the bot did not write can carry them, since every `chooseday` token holds `date.isoformat()` (`Tokens.DateTokenRoundTrip`).
- Dialogue.IsCommand and Dialogue.IsCancelCommand: python-telegram-bot reads commands from the message's entities. `CommandHandler` compares the command case-insensitively and accepts a `@botname` suffix. The model takes a command to be text starting with `/`, and `/cancel` to be that exact word. So `"/CANCEL"` and `"/cancel@BotName"`, which cancel in the older conversations, are not modelled as cancelling.

## Findings

| source | as written | input that shows it | evidently intended | confidence | as-written member | corrected member |
|---|---|---|---|---|---|---|
| db/queries.py:67 | the filter reads `today`, a name that is not defined in the function or the module, so every call raises `NameError` | any call, e.g. `get_participations_for_username(s, "ann", date(2024, 5, 1))` | filter on `Event.date >= after_date`, the parameter | high; not executed | Db.ParticipationsForUsernameAsWritten | Db.ParticipationsForUsername |
| flows/participation.py:19 | `build_schedule_text(event_dtos, markdown=False)`, while `build_schedule_text` (utils/formatting.py:40) takes one parameter, so every call raises `TypeError` | pressing "Расписание" once | `build_schedule_text(event_dtos)`, after which the week's text is sent | high; not executed | ParticipationFlow.ScheduleHandlerAsWritten | ParticipationFlow.ScheduleHandler |
| flows/admin.py:90-92 | in `SET_EVENT_TIME` the filter `TEXT & ~COMMAND` accepts every text that is not a command, and the state's handlers are tried before the fallbacks, so the cancel word "Отмена" goes to `admin_set_event_time` and becomes the event's time | "Редактировать события", an event, "edittime", then the text "Отмена" | the cancel word cancels here as in every other state | medium; not executed | Dialogue.CancelWordBecomesTime | Dialogue.AdminRouteFixed |
| flows/admin.py:16-39 | `admin` has no administrator check, so anyone who types the menu text gets the menu and can change times; the main menu (shared/main_menu.py:15) only hides the button | a user not in `ADMIN_IDS` sends "Редактировать события" | turn away users not in `ADMIN_IDS`, as bot.py:420-423 does | medium; not executed | AdminFlow.Admin | AdminFlow.AdminChecked |
