# Project-management app: domain rules, live updates and colour filters

A model of the rules at the heart of a Django project-management app. Projects
have a creator, an optional team head and members with a project role.
Members are assigned task pages, log time in daily updates, post chat
messages and progress updates, raise issues for management to decide, and
receive notifications. New notifications and project updates are pushed to
browsers over WebSockets.

The database is a value of `Models.Tables`: one sequence of records per
table, plus the next free key. `Models.Valid` states the integrity the
database keeps:

- unique keys;
- foreign keys;
- the `unique_together` rule on project members;
- unique usernames.

Every modelled view that changes data is a method of `Store.Store`. The class holds
the tables and the channel layer that the `post_save` signals publish to.
Each method checks what the view checks, in the view's order. Each
operation is defined once, as a function on `Tables`, and the method is
proved against that function. The properties the app relies on are proved
about the functions:

- what is replaced and what stays;
- idempotence;
- preservation of `Valid`;
- `get_or_create` de-duplication.

The WebSocket consumers are classes whose fields `connect` sets. The
channel layer (`ChannelLayer.Layer`) maps group names to sets of channels
and keeps an outbox of everything sent. The rest is pure:

- the permission predicates;
- the urgency ordering of the dashboards;
- the calendar's month navigation;
- the time-log arithmetic;
- the signal payloads;
- the template colour filters.

The modules, in dependency order:

- `Wrappers`: `Option` and `Result`.
- `Text`: Python's `str.strip`, `int()`, `str.split`, decimal printing and `os.path.basename`.
- `Choices`, `Users`: the enumerations and their stored codes; the user record.
- `Dates`: proleptic Gregorian dates, as `datetime.date` handles them.
- `Rows`: filters and a stable sort used as ORM queries.
- `Models`: the records, their defaults, integrity, delete cascades and orderings.
- `Permissions`: the access predicates.
- `Timelog`: the time-log totals.
- `Dashboard`: urgency and project lists.
- `Calendar`: month navigation and day grouping.
- `Mutations`: table updates.
- `ChannelLayer`, `Signals`, `Consumers`: the live-update layer.
- `PmsExtras`: the template filters.
- `FanOut`: notification recipients and `get_or_create`.
- `Store`: the views that change state.

## Model

| member | source | states |
|---|---|---|
| Text.Strip | pms/views.py:274 | the stripped text has no surrounding whitespace and is empty exactly when the input is all whitespace |
| Text.StripPadded | pms/views.py:274 | stripping removes exactly the whitespace padding around a trimmed text |
| Text.NatToString | pms/signals.py:17 | `str(n)` is a canonical decimal numeral whose value is `n` |
| Text.CanonicalRoundTrip | pms/signals.py:17 | printing the value of a canonical numeral gives the numeral back |
| Text.NatToStringIff | pms/signals.py:49 | a string is `str(n)` iff it is canonical and its value is `n` |
| Text.IntToString | pms/views.py:283 | `str(i)` is digits with a leading '-' exactly for negative `i` |
| Text.ParseIntRoundTrip | pms/views.py:278 | `int()` accepts any printed integer with surrounding whitespace and returns that integer |
| Text.ParseIntDigits | pms/routing.py:6 | `int()` of a canonical digit string is its decimal value |
| Text.Pad2 | pms/signals.py:58 | two digits whose value is the number, as `%I` and `%M` print |
| Text.IndexOf | pms/views.py:276 | the first position of the character, or none exactly when it is absent |
| Text.Split | pms/views.py:277 | `split(':')` gives at least one part, one part iff no separator, no part holds the separator, and joining the parts gives the text back |
| Text.SplitJoin | pms/views.py:277 | splitting the join of separator-free parts gives the parts back |
| Text.Basename | pms/signals.py:34 | the text after the last '/', which is a suffix of the path containing no '/' |
| Choices.TaskStatusFromCode | pms/choices.py:3-6 | the stored code identifies exactly one member and the codes are distinct |
| Choices.PriorityFromCode | pms/choices.py:8-21 | task and project priorities share the codes LOW, MEDIUM, HIGH, pairwise distinct |
| Choices.ProjectStatusFromCode | pms/choices.py:13-16 | the stored code identifies exactly one project status |
| Choices.ProjectRoleFromCode | pms/choices.py:23-26 | the stored code identifies exactly one project role |
| Choices.ProjectUpdateStatusFromCode | pms/choices.py:28-32 | the stored code identifies exactly one update status |
| Choices.ProjectUpdateIntentFromCode | pms/choices.py:34-38 | the stored code identifies exactly one update intent |
| Choices.WorkStatusFromCode | pms/choices.py:40-43 | the stored code identifies exactly one work status, and "PENDING" is none |
| Choices.IssueSubjectFromCode | pms/choices.py:45-52 | the stored code identifies exactly one subject; work from home is stored as "WFH", so "WORK_FROM_HOME" is no code |
| Choices.IssueStatusFromCode | pms/choices.py:54-58 | the stored code identifies exactly one issue status |
| Choices.UpdateCategoryFromCode | pms/models.py:107-111 | the category is UPDATE or RECOMMENDATION, each with its own code |
| Users.RoleFromCode | users/models.py:5-7 | the role is MANAGEMENT or EMPLOYEE, with distinct codes |
| Users.NewUser | users/models.py:9-12 | a new user is an employee with no profile photo |
| Dates.DaysInMonth | pms/views.py:588 | every month has 28 to 31 days |
| Dates.FirstOfMonth | pms/views.py:589 | `replace(day=1)` keeps year and month and gives a valid date |
| Dates.AddDays | pms/views.py:589 | adding days gives a valid date or overflows |
| Dates.AddDaysOrdinal | pms/views.py:104 | adding `n` days adds `n` to the day number |
| Dates.LeIffOrdinal | pms/views.py:109 | date comparison agrees with the day number |
| Dates.Add32FromFirst | pms/views.py:589 | 32 days after the first of a month falls in the following month, overflowing only after December of the last year |
| Dates.PrevFromFirst | pms/views.py:590 | the day before the first of a month falls in the preceding month, overflowing only before January of year 1 |
| Rows.Filter | pms/views.py:477 | the filtered rows are exactly the rows that pass |
| Rows.FilterAppend | pms/views.py:477 | filtering distributes over concatenation |
| Rows.FilterUnique | pms/models.py:19-20 | filtering keeps keys unique |
| Rows.MapRows | pms/views.py:706 | row-wise update keeps length and applies the update to each row |
| Rows.SortWith | pms/views.py:116 | `order_by` gives an ordered permutation of the rows |
| Models.NewProject | pms/models.py:25-68 | a new project is PENDING, MEDIUM priority and INCOMPLETE, with no team head, meeting link or end date |
| Models.NewTaskPage | pms/models.py:87-92 | a new task page is incomplete |
| Models.NewNotification | pms/models.py:199-204 | a new notification is unread |
| Models.NewIssue | pms/models.py:185-191 | a new issue is PENDING |
| Models.NewProjectUpdate | pms/models.py:102-129 | a new update has category UPDATE, priority MEDIUM, no title and no files |
| Models.SameUserTwoRoles | pms/models.py:19-20 | one user may join a project twice with different roles but not twice with the same role |
| Models.DisplayIdentifiesUser | users/models.py:14-15 | in a valid database a user's text form (the username) identifies the user |
| Models.DeleteTaskPage | pms/models.py:177 | deleting a task page deletes the line items logged against it and nothing else |
| Models.DeleteTaskPageValid | pms/models.py:177 | deleting a task page keeps the database valid |
| Models.DeleteProject | pms/models.py:11-177 | deleting a project cascades to its members, documents, task pages, updates with their attachments, work updates and affected line items; users, daily updates, issues and notifications stay |
| Models.DeleteProjectValid | pms/models.py:11-177 | deleting a project keeps the database valid |
| Models.DeleteProjectKeys | pms/models.py:11-177 | after the cascade keys stay unique and below the counter, and no user joins a project twice with one role |
| Models.DeleteProjectRefs | pms/models.py:11-177 | after the cascade every remaining row refers only to rows that remain |
| Models.DeleteUser | pms/models.py:34-200 | deleting a user nulls the creator, team head, update author and document uploader, and cascades to memberships, task pages, work and daily updates, their line items, issues and notifications |
| Models.DeleteUserValid | pms/models.py:34-200 | deleting a user keeps the database valid |
| Models.DeleteUserKeys | pms/models.py:34-200 | after the cascade keys stay unique and below the counter, and memberships stay unique |
| Models.DeleteUserProjectIds | pms/models.py:34-104 | deleting a user removes no project and no project update, since those references are set to null |
| Models.DeleteUserUserRefs | pms/models.py:34-104 | the nulled creator, team head, uploader and author references point only at remaining users |
| Models.DeleteUserRowRefs | pms/models.py:57-200 | the rows the cascade keeps refer only to remaining users, projects, pages, updates and daily updates |
| Models.NotificationsOf | pms/models.py:206-207 | a user's notifications, newest first, are a permutation of that user's rows |
| Models.PagesOf | pms/models.py:94-95 | a member's pages in a project, oldest first, are a permutation of those rows |
| Permissions.IsAdminOrManager | pms/views.py:52-57 | only signed-in users qualify and management always does |
| Permissions.AdminWithoutProject | pms/views.py:52-57 | without a project the helper holds iff the user is management or qualifies for some project |
| Permissions.BaseTemplateOf | pms/views.py:59-62 | the management base template exactly for management, the employee one exactly for employees |
| Permissions.IndexView | pms/views.py:85-88 | the login page exactly for anonymous visitors |
| Permissions.IndexViewLanding | pms/views.py:85-88 | management and team heads land on the management dashboard; other employees land on the project list |
| Permissions.AccessLadder | pms/views.py:264-265 | team head implies may lead, may lead implies may view, and the helper on a project is exactly the lead check |
| Permissions.ListTeamHead | pms/views.py:184-185 | the project list treats an employee as team head iff the employee heads some project |
| Timelog.EntryHoursMinutes | pms/views.py:272-281 | an entry "h:m" with optional further parts and whitespace adds `h*60+m` |
| Timelog.BlankEntry | pms/views.py:273-274 | an empty or blank entry adds nothing |
| Timelog.EntryUnparsed | pms/views.py:276-281 | an entry with ':' whose hour or minute field is not an integer adds nothing, because the `ValueError` is swallowed |
| Timelog.SumMinutesAppend | pms/views.py:271-281 | the total of two batches of entries is the sum of their totals, so each entry contributes independently |
| Timelog.SumMinutesStep | pms/views.py:271-281 | one more entry adds its own minutes to the running sum |
| Timelog.TotalMinutes | pms/views.py:271-281 | the accumulation loop returns the sum of the entries' contributions |
| Timelog.FormatTotalShows | pms/views.py:282-283 | the text shows the hours and the remaining minutes below 60 |
| Timelog.FormatTotalInjective | pms/views.py:282-283 | different totals show as different texts |
| Timelog.ProjectEntriesExact | pms/views.py:270 | exactly the time entries logged against the project |
| Timelog.MemberEntriesExact | pms/views.py:286 | exactly the member's time entries on the project |
| Timelog.EntriesOfCovered | pms/views.py:270-286 | a database whose every entry is in the "h:m" or blank form gives such entries for every project and member |
| Timelog.MemberTotal | pms/views.py:286-299 | a member's total is the formatted sum of exactly that member's entries, with the same sum and format as the project total; only those entries need the covered form |
| Timelog.ProjectTotal | pms/views.py:270-283 | the project total is the formatted sum of its entries; only those entries need the covered form |
| Timelog.TeamEntriesAt | pms/views.py:285-286 | the k-th column of the team's entries is exactly the k-th member's entries |
| Timelog.TotalsSnoc | pms/views.py:285-298 | one more member row appends its own shown total |
| Timelog.MemberTotals | pms/views.py:285-299 | the loop over the team gives one shown total per member row, in team order |
| Timelog.TimeSummary | pms/views.py:269-299 | the project total and the member totals, each needing only the entries it sums to be in the covered form |
| Timelog.TimeSummaryRows | pms/views.py:285-299 | the k-th member row shows the formatted sum of exactly the k-th member's entries in the project |
| Dashboard.Threshold | pms/views.py:103-104 | five days after today, when that is a date |
| Dashboard.UrgentIff | pms/views.py:106-116 | urgent iff the end date is at most five days away and the status update is not COMPLETE |
| Dashboard.CompleteNeverUrgent | pms/views.py:110 | a COMPLETE project is never urgent |
| Dashboard.DashboardPreorder | pms/views.py:116 | urgent first, then by end date, is a total preorder |
| Dashboard.ListPreorder | pms/views.py:197 | urgent first, then newest, is a total preorder |
| Dashboard.DashboardOrder | pms/views.py:106-116 | the dashboard lists every project once, urgent ones first, then by end date |
| Dashboard.ListOrder | pms/views.py:192-197 | the project list is a permutation, urgent first, then newest |
| Dashboard.UrgentFirst | pms/views.py:116 | in the dashboard order no urgent project follows a non-urgent one |
| Dashboard.ProjectsLedOrJoined | pms/views.py:151-153 | exactly the projects the user joins or heads |
| Dashboard.EmployeeDashboard | pms/views.py:151-163 | exactly the joined or headed projects, urgent first, then by end date |
| Dashboard.VisibleProjects | pms/views.py:187-188 | management sees every project; others see those they join, have pages in or head |
| Dashboard.ProjectListFor | pms/views.py:187-197 | exactly the visible projects, urgent first, then newest |
| Dashboard.OpenTasks | pms/views.py:165-168 | exactly the user's incomplete task pages |
| Dashboard.Recent | pms/views.py:118 | the first six of the ordered projects |
| Calendar.ShownMonth | pms/views.py:587 | the route's month, or today's month when the route names no year |
| Calendar.MonthNavSpec | pms/views.py:586-590 | `ValueError` exactly for a month outside the calendar, and `OverflowError` exactly for December of year 9999 or January of year 1 |
| Calendar.MonthNavLinks | pms/views.py:588-590 | otherwise the first of the month shown, and the first of the following and the preceding month, with December and January wrapping |
| Calendar.MonthUpdates | pms/views.py:592 | exactly the user's daily updates in the month, newest first |
| Calendar.OnDay | pms/views.py:595-600 | exactly the updates of one day, in list order |
| Calendar.GroupAllGrouped | pms/views.py:595-600 | grouping the updates one by one gives one key per day with updates, holding that day's updates in order |
| Calendar.GroupByDay | pms/views.py:595-600 | the dictionary built in place is that grouping |
| Calendar.GroupsPartition | pms/views.py:595-600 | every update appears under its own day and under no other |
| Mutations.AddNotification | pms/views.py:528 | one unread notification is appended with the next key; nothing else changes |
| Mutations.AddNotificationValid | pms/views.py:528 | a notification for an existing user keeps the database valid |
| Mutations.RetouchPagesValid | pms/views.py:500 | updating page fields other than keys and references keeps the database valid |
| Mutations.RetouchWorkValid | pms/views.py:509 | updating work-update fields other than keys and references keeps the database valid |
| Mutations.RetouchIssuesValid | pms/views.py:697 | updating issue fields other than keys and references keeps the database valid |
| Mutations.RetouchNotificationsValid | pms/views.py:706 | updating notification fields other than keys and references keeps the database valid |
| Mutations.RetouchProjectsValid | pms/views.py:333 | updating project fields other than keys and references keeps the database valid |
| Mutations.FindPage | pms/views.py:499 | `get_object_or_404` finds a page with the key in scope exactly when one exists |
| Mutations.FindPageUnique | pms/views.py:499 | in a valid database the page found is the only one with that key |
| Mutations.SetComplete | pms/views.py:500 | only the page with the key changes, and only its completion flag |
| Mutations.SetCompleteValid | pms/views.py:500 | setting the flag keeps the database valid |
| Mutations.SetCompleteRestores | pms/views.py:524 | toggling twice gives the database back |
| Mutations.SetCompleteIdempotent | pms/views.py:500 | completing a page twice is completing it once |
| Mutations.KeptNames | pms/views.py:484 | the names of the rows that are not deleted and have a name, in form order |
| Mutations.AppendPages | pms/views.py:483-485 | one fresh, incomplete page per name, in order, with consecutive keys |
| Mutations.RemovePairPages | pms/views.py:482 | deleting the member's pages in the project removes those pages and the line items logged against them |
| Mutations.ReplacePagesPairs | pms/views.py:477-485 | afterwards the member's pages in the project are exactly one fresh, incomplete page per kept row, with the kept names in order |
| Mutations.ReplacePagesOthers | pms/views.py:481-485 | pages of other pairs are unchanged, only line items of the removed pages go, and no other table changes |
| Mutations.RemovePairPagesValid | pms/views.py:482 | the delete keeps the database valid |
| Mutations.AppendPagesValid | pms/views.py:485 | the creates keep the database valid |
| Mutations.ReplacePagesValid | pms/views.py:481-485 | the whole replace keeps the database valid |
| Mutations.AddMemberRow | pms/views.py:558 | one membership row is appended with the next key; nothing else changes |
| Mutations.AddMemberValid | pms/views.py:555-558 | adding a user not yet in the team keeps the database valid and gives the user exactly one row in the project |
| Mutations.RemoveMemberRow | pms/views.py:543-544 | exactly the row with the key is removed |
| Mutations.RemoveMemberValid | pms/views.py:544 | removing a membership keeps the database valid |
| Mutations.UpdateWorkRows | pms/views.py:509 | the matched rows take the new status and remarks; keys and references stay |
| Mutations.InsertWork | pms/views.py:509 | one work update is appended with the next key |
| Mutations.UpdateWorkRowsSpec | pms/views.py:509 | updating the single matching row leaves one row for the pair, holding the new status and remarks; rows of other pairs stay |
| Mutations.InsertWorkSpec | pms/views.py:509 | inserting when no row matches leaves one row for the pair, holding the new status and remarks; rows of other pairs stay |
| Mutations.UpsertWork | pms/views.py:509 | `update_or_create` raises when two rows match; otherwise afterwards one row for the pair holds the new status and remarks, and other pairs' rows are unchanged |
| Mutations.UpsertIdempotent | pms/views.py:509 | repeating the same upsert changes nothing |
| Mutations.InsertWorkValid | pms/views.py:509 | the insert keeps the database valid |
| Mutations.UpsertWorkValid | pms/views.py:509 | the upsert keeps the database valid |
| Mutations.ActionStatus | pms/views.py:693-696 | accept, decline and wfh set their status; any other action keeps the current one |
| Mutations.ActionStatusDecides | pms/views.py:693-696 | a pending issue stays pending only without a known action, and the three actions give three different statuses |
| Mutations.SetIssueStatus | pms/views.py:697 | only the issue with the key changes, and only its status |
| Mutations.SetIssueStatusValid | pms/views.py:697 | the status change keeps the database valid |
| Mutations.SetMeetLink | pms/views.py:331-333 | only the project with the key changes, and only its meeting link |
| Mutations.SetMeetLinkStores | pms/views.py:333 | afterwards the project carries the new link and other projects are unchanged |
| Mutations.SetMeetLinkValid | pms/views.py:333 | the save keeps the database valid |
| Mutations.PostedUpdate | pms/views.py:453-455 | the form's update, attached to the project and the poster with category UPDATE and the next key |
| Mutations.AddUpdate | pms/views.py:455 | one project update is appended; nothing else changes |
| Mutations.AddUpdateValid | pms/views.py:423 | posting an update by an existing user on an existing project keeps the database valid |
| Mutations.MarkRead | pms/views.py:706 | every notification of the user becomes read; the rest stay |
| Mutations.MarkReadSpec | pms/views.py:706 | the user has no unread notification afterwards, and other users' notifications are unchanged |
| Mutations.MarkReadIdempotent | pms/views.py:706 | marking read twice is marking read once |
| Mutations.MarkReadValid | pms/views.py:706 | marking read keeps the database valid |
| ChannelLayer.WireNamesDistinct | pms/consumers.py:16-33 | event keys with the same wire name are the same key |
| ChannelLayer.Joined | pms/consumers.py:10 | `group_add` adds the channel to that group and to no other |
| ChannelLayer.Left | pms/consumers.py:14 | `group_discard` removes the channel from that group and from no other |
| ChannelLayer.LeaveUndoesJoin | pms/consumers.py:10-14 | leaving after a fresh join restores every group |
| ChannelLayer.Layer.GroupAdd | pms/consumers.py:10 | the layer's groups become `Joined`; nothing is sent |
| ChannelLayer.Layer.GroupDiscard | pms/consumers.py:14 | the layer's groups become `Left`; nothing is sent |
| ChannelLayer.UpdatePayloadFields | pms/consumers.py:16-33 | an update payload has exactly the eleven update keys, each holding the value given for it |
| ChannelLayer.Layer.GroupSend | pms/signals.py:16 | the message is appended to the outbox; groups are unchanged |
| Signals.NotificationGroupInjective | pms/signals.py:17 | different users have different notification groups |
| Signals.ProjectGroupInjective | pms/signals.py:49 | different projects have different update groups |
| Signals.GroupsDisjoint | pms/signals.py:17-49 | no update group is a notification group |
| Signals.NotificationEvent | pms/signals.py:18-22 | the event carries the type and the message and link unchanged |
| Signals.OnNotificationSaved | pms/signals.py:12-23 | a broadcast exactly when the row was created, to its user's group |
| Signals.NotificationReachesOwner | pms/signals.py:17 | the broadcast goes to a user's group iff the notification is that user's |
| Signals.FormatTime12Shape | pms/signals.py:58 | "%I:%M %p": hour 01-12 congruent to the hour mod 12, zero-padded minutes, AM before noon and PM after |
| Signals.FormatTime12Iff | pms/signals.py:58 | two times print alike iff they share hour and minute |
| Signals.TemplateOf | pms/signals.py:43-46 | the timeline item iff the title is non-empty, else the chat bubble |
| Signals.MediaLink | pms/signals.py:32-33 | a file's URL is null exactly when the field is empty, else the media prefix plus the name |
| Signals.UpdateEvent | pms/signals.py:29-61 | payload construction succeeds exactly when the update has an author |
| Signals.UpdateEventSpec | pms/signals.py:29-61 | the payload has the eleven keys: its type, html, the author's id and name, the photo null exactly without one, title and message, the timestamp format, the media links, and the file name null exactly without a file |
| Signals.OnUpdateSaved | pms/signals.py:25-62 | a broadcast to the project's group exactly when the row was created, failing when the author is missing |
| Consumers.RouteGroupIff | pms/consumers.py:6-7 | the socket's group equals the publisher's iff the captured digits are the canonical decimal of the project id |
| Consumers.Get | pms/consumers.py:19 | `event.get` gives the value or null |
| Consumers.UpdateFrame | pms/consumers.py:16-33 | the frame is built exactly when the event has every required key; otherwise `KeyError` names a required key the event lacks |
| Consumers.UpdateFrameSpec | pms/consumers.py:16-33 | the frame has the eleven keys, type project_update, and every other key copied from the event or null when absent |
| Consumers.NotificationFrame | pms/consumers.py:48-51 | the frame is exactly type, message and link; a missing key raises |
| Consumers.UpdateFrameOfFull | pms/consumers.py:16-33 | an event with every key passes through with only its type changed |
| Consumers.UpdateReachesBrowser | pms/consumers.py:16-33 | the signal's update payload reaches the browser intact |
| Consumers.NotificationReachesBrowser | pms/consumers.py:48-51 | the signal's notification payload reaches the browser intact |
| Consumers.ProjectUpdateConsumer.Connect | pms/consumers.py:5-11 | sets the route, group and user, joins the URL's group and accepts, for any user |
| Consumers.ProjectUpdateConsumer.Disconnect | pms/consumers.py:13-14 | leaves exactly the group joined, or fails when never connected |
| Consumers.ProjectUpdateConsumer.SendProjectUpdate | pms/consumers.py:16-33 | writes the update frame, or raises without writing; the route, group, user and accepted state stay |
| Consumers.NotificationConsumer.Connect | pms/consumers.py:36-43 | an anonymous socket is closed and joins nothing; a signed-in one joins its user's group and is accepted |
| Consumers.NotificationConsumer.Disconnect | pms/consumers.py:45-46 | leaves exactly the group joined; a socket closed in `connect` has no group and raises |
| Consumers.NotificationConsumer.SendNotification | pms/consumers.py:48-51 | writes the notification frame, or raises without writing; the group, user, accepted and closed state stay |
| PmsExtras.PairIndex | pms/templatetags/pms_extras.py:21 | the index is in [0, 8) and congruent to the id, also for negative ids |
| PmsExtras.UserBgColor | pms/templatetags/pms_extras.py:17-22 | white for a missing or zero id, else the background of the id's pair |
| PmsExtras.UserTextColor | pms/templatetags/pms_extras.py:24-29 | black for a missing or zero id, else the text colour of the id's pair |
| PmsExtras.PaletteDistinct | pms/templatetags/pms_extras.py:6-15 | the eight backgrounds and the eight text colours are pairwise distinct and never the fallbacks |
| PmsExtras.ColorsByResidue | pms/templatetags/pms_extras.py:17-29 | two non-zero ids get the same colours iff they agree modulo 8 |
| PmsExtras.ColorsPaired | pms/templatetags/pms_extras.py:21-28 | background and text always come from one pair (or are both fallbacks) |
| PmsExtras.GetItem | pms/templatetags/pms_extras.py:31-33 | the mapped value, or nothing when the key is absent |
| PmsExtras.CalendarCell | pms/templatetags/pms_extras.py:31-33 | the calendar cell of a day shows that day's updates, and nothing for a day without any |
| FanOut.MemberUsers | pms/models.py:57-61 | the users of `project.members`: exactly those with a membership row |
| FanOut.MeetRecipients | pms/views.py:336-349 | members and the team head, never the actor |
| FanOut.Participants | pms/views.py:424-427 | creator, team head and members, never the actor (the intended chat and update recipients) |
| FanOut.ParticipantsAsWritten | pms/views.py:424-425 | the recipient loop as written raises exactly when the project has a membership row |
| FanOut.ParticipantsAsWrittenFails | pms/views.py:458-459 | a project with a member other than the poster raises, although that member is an intended recipient |
| FanOut.ParticipantsAsWrittenAgrees | pms/views.py:424-427 | when the loop as written gets through, it yields the intended recipients |
| FanOut.RecipientsExist | pms/views.py:336-349 | in a valid database every recipient is an existing user |
| FanOut.MatchCount | pms/views.py:351-356 | no unread copy of the message exists iff the count is zero |
| FanOut.GetOrCreate | pms/views.py:351-356 | raises on two or more unread copies, keeps one, and creates the row when there is none |
| FanOut.GetOrCreateCounts | pms/views.py:351-356 | afterwards exactly one unread copy exists and other users' copies are unchanged |
| FanOut.NotifyAllSnoc | pms/views.py:348-356 | one more recipient raises, keeps or creates exactly as `get_or_create` does |
| FanOut.NotifyAllAppends | pms/views.py:348-356 | a fan-out appends what it creates, with consecutive keys |
| FanOut.NotifyAllCreated | pms/views.py:348-356 | each created row is a fresh unread notification for one of the recipients |
| FanOut.NotifyAllFrame | pms/views.py:348-356 | a fan-out changes no table but the notifications |
| FanOut.NotifyAllCounts | pms/views.py:348-356 | a fan-out raises iff some recipient already has two unread copies; otherwise each recipient has exactly one and others are unchanged |
| FanOut.NotifyAllNoop | pms/views.py:351-356 | when every recipient already has one copy, nothing is created |
| FanOut.NotifyAllAgain | pms/views.py:336-359 | saving the same link again creates no second unread notification |
| FanOut.NotifyAllValid | pms/views.py:348-356 | a fan-out to existing users keeps the database valid |
| FanOut.Broadcasts | pms/signals.py:12-23 | one broadcast per created notification, as the signal sends it |
| FanOut.FindUser | pms/views.py:476 | the user with the key, found exactly when one exists |
| FanOut.EmailOf | pms/views.py:357-358 | the e-mail of the recipient's row, and none for a key without a row |
| FanOut.EmailOfUser | pms/views.py:357-358 | with unique user keys, the address for a user's key is that user's own e-mail |
| FanOut.EmailList | pms/views.py:346-359 | exactly the non-empty addresses of the notified users |
| FanOut.EmailListSnoc | pms/views.py:358-359 | each recipient appends its address when it has one |
| FanOut.EmailsOfRecipients | pms/views.py:346-359 | the e-mail list holds exactly the non-empty addresses of the recipient set |
| Store.FindProject | pms/views.py:75 | the project with the key, found exactly when one exists |
| Store.FindIssue | pms/views.py:691 | the issue with the key, found exactly when one exists |
| Store.TeamHeadOnly | pms/views.py:73-81 | 404 without the project; passes exactly the project's team head |
| Store.ViewAccess | pms/views.py:414-416 | 404 without the project; passes management, members and the team head |
| Store.LeadAccess | pms/views.py:326-329 | passes exactly the viewers who are management or the team head |
| Store.LeadAccessNests | pms/views.py:444 | team-head access implies lead access, which implies view access |
| Store.Store.AssignPages | pms/views.py:475-486 | team head only, 404 for an unknown user, then the member's pages are replaced as `ReplacePages` states; the database stays valid |
| Store.Store.CreatePages | pms/views.py:483-485 | the form loop creates one page per kept row, in order |
| Store.Store.CompleteTaskPage | pms/views.py:498-501 | completes the actor's own page; 404 for anyone else's |
| Store.Store.ToggleTask | pms/views.py:520-530 | team head only; flips the page's flag and notifies the assignee unless the assignee is the actor, with the broadcast |
| Store.Store.ApplyToggle | pms/views.py:523-530 | flips the flag of the page found; notifies and broadcasts to the assignee unless the assignee is the actor; the database stays valid |
| Store.Store.SetTaskStatus | pms/views.py:718-724 | 404 for an unknown page, 403 for anyone but the team head; completion iff the status is "complete" |
| Store.Store.AddMember | pms/views.py:550-560 | team head only; refuses the team head and existing members; otherwise adds one row |
| Store.Store.RemoveMember | pms/views.py:541-548 | team head only; removes the project's row with the key, or reports it missing |
| Store.Store.SaveWorkUpdate | pms/views.py:505-510 | 404 without the project; a valid form upserts the actor's work update |
| Store.Store.DecideIssue | pms/views.py:688-699 | management only; 404 for an unknown issue; sets the status from the action and notifies the issue's author |
| Store.Store.ReadNotifications | pms/views.py:702-706 | returns the notifications as they were, newest first, then marks them all read |
| Store.Store.NotifyEach | pms/views.py:348-359 | the loop creates exactly what the fan-out over the set's order creates, broadcasts each new row, reaches every recipient once unless it raises, and collects the addresses |
| Store.Store.NotifyStep | pms/views.py:351-356 | one recipient takes the database and the outbox one step along the fan-out |
| Store.Store.GetOrCreateNotification | pms/views.py:351-356 | `get_or_create` with the `post_save` broadcast on creation; fails on two or more copies |
| Store.Store.SaveMeetLink | pms/views.py:326-359 | lead access; saves the link, notifies members and the team head but not the actor, and returns their non-empty e-mail addresses |
| Store.Store.PostChat | pms/views.py:413-430 | view access; saves the chat message, broadcasts it, and notifies creator, team head and members but not the poster |
| Store.Store.PostUpdate | pms/views.py:436-467 | lead access; saves the update, broadcasts it, and notifies creator, team head and members but not the poster |
| Store.Store.Publish | pms/views.py:453-462 | the shared save, broadcast and notify of chat and updates |
| Store.BroadcastsSnoc | pms/signals.py:12-23 | the broadcast of one more created row is appended to the outbox |

## Left out

- Request plumbing is not modelled. This covers `login_required` redirects, the messages framework, `render`, redirect targets, JSON responses and pagination. Views are given a signed-in `User` as the actor.
- Django's forms and formset validation are not modelled. A valid formset is a sequence of `(deleted, page_name)` rows. A work-update form is `Option<WorkForm>`, and `None` stands for an invalid form. The member form is modelled by the checks it makes: a user and a role are given, and the user is an employee.
- The attachment formsets and document uploads (pms/views.py:456-457, 313) are not modelled. Files are plain stored names.
- `send_mail` is not modelled: I/O. `Store.Store.SaveMeetLink` returns the recipient list the mail would go to.
- Templates are not modelled. `render_to_string` is a tag naming the template and the update.
- URL escaping is not modelled. `reverse` is the plain path, with the id printed in decimal.
- Time zones and locales are not modelled. Instants are UTC seconds, and `%p` is "AM"/"PM".
- Clock and randomness are parameters. `today` and `now` are passed in.
- Timelog.EntryMinutes: requires each non-blank entry to contain ':'. The decimal-hours branch (`float(t_str) * 60`, pms/views.py:280 and 296) is floating point and is not modelled. The totals require this form only of the entries they sum: the project's for `ProjectTotal`, each member's for `MemberTotal` and `TimeSummary`.
- Python `int()` is modelled for an optional sign and ASCII digits with surrounding whitespace. Underscores and non-ASCII digits are not modelled.
- The WebSocket route's `\d+` (pms/routing.py:6) also matches non-ASCII Unicode digits. `Consumers.RouteGroupIff` and `Consumers.ProjectUpdateConsumer.Connect` take ASCII digits only.
- Dashboard.EndDateLe: a missing end date sorts after every present one in `order_by('end_date')`. That is the NULL order of PostgreSQL and Oracle; SQLite and MySQL put NULL first.
- The recommendation post of the project detail page (pms/views.py:315-324) is not modelled: a form save with attachment formsets. Its `post_save` broadcast is the one `Signals.OnUpdateSaved` models.
- `manage_employees_view` (pms/views.py:648-659) is not modelled: it creates users through a form, and user creation is outside the modelled rules.
- The channel backend's delivery and the `async`/`async_to_sync` layer are not modelled: concurrency. Sends are appended to the layer's outbox in order.
- The project socket's missing authorisation (pms/consumers.py:5-11) is kept as it is. No check is added.
- Row keys: the model uses a single `nextId` counter for new rows in every table. The database's per-table sequences are not modelled. Only freshness matters to the properties.
- `Store.Store.NotifyEach`: the order in which Python iterates the recipient set is not modelled. The method reports the order it used as a ghost result, and the properties are stated for any order.
- Views that touch the same tables but sit outside the modelled rules are not modelled:
  - `add_project` and `edit_project`: form saves;
  - `end_project_meeting` (pms/views.py:398-409);
  - `team_head_project_update_view` (pms/views.py:512-518);
  - `submit_issue_view`'s manager notifications (pms/views.py:676-683);
  - the daily-update form (pms/views.py:565-582);
  - `manager_daily_update_list_view`.
- `get_attribute` (pms/templatetags/pms_extras.py:35-36) is not modelled: reflection.
- The project fields `updated_at`, `project_logo` and the voice note are not modelled: they play no part in any rule.
- `Project.project_status_update` is modelled as a work status. The blank value the field allows is not modelled, because the form never submits it.
- The users' module views and forms are not part of this model.

## Findings

| source | as written | input that shows it | evidently intended | confidence | as-written member | corrected member |
|---|---|---|---|---|---|---|
| pms/views.py:424-428 | the chat view collects recipients with `m.user` for `m in project.members.all()`. Those are `User` objects, so the first member raises `AttributeError`. The message is already saved and broadcast, and nobody is notified. | a project with one membership row, and a chat message posted by its team head | notify the creator, the team head and every member except the poster | not executed | FanOut.ParticipantsAsWritten, FanOut.ParticipantsAsWrittenFails | FanOut.Participants, Store.Store.PostChat |
| pms/views.py:458-462 | the updates view has the same recipient loop. A project with members raises after the update is saved and broadcast, and nobody is notified. | a project with one membership row, and an update posted by management | notify the creator, the team head and every member except the poster | not executed | FanOut.ParticipantsAsWritten, FanOut.ParticipantsAsWrittenFails | FanOut.Participants, Store.Store.PostUpdate |
