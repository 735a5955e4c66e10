# Lemming task manager — verified model of its core rules

Lemming is a Django application in which users sign up, form teams, create
and assign tasks and receive due-date reminders, while ORM signal handlers
keep a per-user activity log. This project models, in Dafny, the parts of
it that are deterministic once the clock, the acting user and the database
relations are passed in as plain values:

- **Activity-log recorder** (`signals.dfy`, module `Signals`). The `Recorder`
  class holds one log of `(message, timestamp)` entries per user id. It has
  one method per signal handler, and each method states the user's new log
  in terms of a specification function:
  - `AfterLogin` for the login rule that replaces an entry less than two
    seconds old;
  - `TaskSaveEntries` for the field-by-field diff of a task save;
  - `MembershipEntries` and `AssignmentEntries` for the many-to-many changes.
  
  Lemmas then prove what those functions promise.
- **Task, user and team rules** (`models.dfy`, module `Models`): the records,
  the field constraints, the username pattern, the priority choices, the
  full name and the "high priority, due soon" window.
- **Notification middleware** (`middleware.dfy`, module `Middleware`): the
  nested loop of `get_notifications`, proved equal to a team-by-team
  specification, and the assignment `__call__` makes on the request.
- **Duration filter** (`format_time.dfy`, module `FormatTime`). `Format`
  turns seconds into "1d 46m 57s ". Its partner `ParseDuration` reads such
  a text back, and the round trip is proved for every non-negative value.
- **Forms** (`forms.dfy`, module `Forms`):
  - field cleaning and the new-password pattern, read as Python's `re`
    reads it;
  - the confirmation and current-password checks, and the invalid branch
    of `get_user`;
  - a `Store` class whose methods perform what each `save` writes.
- **View decisions** (`views.dfy`, module `Views`):
  - how search queries are classified, and that a user is found by their
    full name or username;
  - the dashboard's arrangement precedence and its filter mapping, with a
    round trip;
  - the per-team loop;
  - a `Workspace` class for `remove_member` and `mark_as_seen_view`;
  - the completion toggle and the admin and assignee permissions.
- Helper modules: `Common` (`Option`) and `Text` (Python's `split()`,
  `strip()`, `capitalize()`, ASCII case folding, decimal digits).

Modelling choices:
- Time in the recorder is whole seconds, which is all the stored
  timestamps keep.
- Dates are whole day numbers, and a date is printed by a `dateText`
  parameter.
- Several things the code obtains from elsewhere are parameters:
  - authentication;
  - whether a task was seen;
  - the other-priority reminder test;
  - the database's `order_by`.

Behaviour modelled as the code has it:
- `EditTaskForm.save` builds a new task from the form, whose fields are
  title, description and due date only. The saved task therefore gets the
  default priority, `medium`.
- A username with one trailing newline passes `^@\w{3,}$`, because `$`
  matches before a final newline.
- A team-membership add whose pk set is empty raises `IndexError` at
  `list(pk_set)[0]`. This happens when everyone named was already a member.
  A membership or assignment remove that names a user not in the relation
  raises `AttributeError` on `member.username`. Both run inside the
  enclosing transaction, so nothing is recorded.
- An assignment change with an empty pk set loops zero times and saves the
  log unchanged.
- Django sends no remove signal for an empty pk set. The membership model
  still fails on one, as `list(pk_set)[0]` would.
- The completion button in `view_task` sets the flag only on the task
  object in memory. That branch does not call `save`, so `CompletionAfterPost`
  describes an unsaved change.
- The shown `Task.is_high_priority_due_soon` uses a fixed window of today
  and tomorrow. It consults no per-task reminder window and no completion
  flag, and the model follows it.

## Model

| member | source | states |
|---|---|---|
| Models.HighPriorityDueSoonWindow | tasks/models.py:70-73 | high-priority-due-soon holds iff the priority is high and the due date is today or tomorrow; never for another priority, a past date or one two or more days ahead |
| Models.UsernameShape | tasks/models.py:10-17 | a username without newline is valid iff it is "@" followed by 3 to 29 word characters (length at most 30) |
| Models.UsernameExamples | tasks/models.py:14 | "@abc" and "@abc\n" are accepted; "@ab", "abcd", "@ab c" and "@abc\n\n" are rejected |
| Models.TaskFieldBoundaries | tasks/models.py:63-64 | a title of 30 characters is accepted, 31 or blank rejected; a description may be blank and holds up to 300 characters |
| Models.TeamNameBoundaries | tasks/models.py:78 | a team name of 50 characters is accepted, 51 or blank rejected |
| Models.PriorityChoices | tasks/models.py:58-62 | each priority's stored value parses back to it, a parsed value is that priority's value, and all fit in 10 characters |
| Models.CapitalizedPriority | tasks/models.py:58-62 | capitalising a stored priority value gives its label |
| Models.NewTask | tasks/models.py:63-69 | a new task has priority medium, is not completed and has no owner |
| Models.FullNameWords | tasks/models.py:38-41 | a full name of two one-word names splits back into first and last name, and is them joined by one space |
| Models.Where | tasks/middleware.py:19 | a task query's result holds exactly the tasks satisfying the condition and is no longer than the input |
| FormatTime.Divide | tasks/templatetags/format_time.py:10-12 | days·86400 + hours·3600 + minutes·60 + seconds equals the value, with hours < 24 and minutes, seconds < 60 |
| FormatTime.DivideUnique | tasks/templatetags/format_time.py:10-12 | any split meeting those bounds is the one `divmod` produces |
| FormatTime.Format | tasks/templatetags/format_time.py:6-23 | the "No time has been spent." message is returned iff the value is None or 0 |
| FormatTime.FormatWords | tasks/templatetags/format_time.py:13-21 | for a nonzero value the words are exactly the nonzero parts in order d, h, m, s, each number plus unit, and the text ends in a space |
| FormatTime.ParseFormat | tasks/templatetags/format_time.py:6-21 | reading the text of any v ≥ 0 back gives v |
| FormatTime.TokenThen | tasks/templatetags/format_time.py:13-20 | a piece such as "46m" in front of readable words adds its number times its unit's seconds |
| FormatTime.ParseTokensAppend | tasks/templatetags/format_time.py:13-20 | the value of concatenated pieces is the sum of their values |
| FormatTime.FormatMinuteBoundary | tasks/tests/views/test_time_modal_view.py:116-124 | None and 0 give the message; 59 gives "59s ", 60 gives "1m " |
| FormatTime.FormatHourBoundary | tasks/tests/views/test_time_modal_view.py:125-127 | 3599 gives "59m 59s ", 3600 gives "1h " |
| FormatTime.FormatDayBoundary | tasks/tests/views/test_time_modal_view.py:128-130 | 86399 gives "23h 59m 59s ", 86400 gives "1d " |
| FormatTime.FormatMixedHours | tasks/tests/views/test_time_modal_view.py:132-133 | 76543 gives "21h 15m 43s " |
| FormatTime.FormatMixedHoursAgain | tasks/tests/views/test_time_modal_view.py:135 | 67892 gives "18h 51m 32s " |
| FormatTime.FormatMixedDays | tasks/tests/views/test_time_modal_view.py:134 | 89217 gives "1d 46m 57s " |
| Signals.Recorder.GetActivityLog | tasks/signals.py:21-26 | an existing log is returned and nothing changes; otherwise one empty log is created for that user and returned |
| Signals.Recorder.UserHasLoggedIn | tasks/signals.py:29-42 | with a user, their log becomes `AfterLogin` of the old log; without one nothing changes; other users' logs are untouched |
| Signals.AfterLoginSpec | tasks/signals.py:37-41 | the log ends with one login entry at now; the last old entry is dropped iff it is under 2 seconds old; otherwise all old entries are kept, so the length grows by 1 or stays |
| Signals.Recorder.UserHasLoggedOut | tasks/signals.py:44-51 | with a user, exactly one "has logged out" entry is appended; without one nothing changes |
| Signals.Recorder.UserSave | tasks/signals.py:57-70 | exactly one entry is appended: "signed up" when created, "edited their user details" otherwise |
| Signals.Recorder.TaskSave | tasks/signals.py:74-107 | without an actor nothing changes; otherwise the actor's log gets `TaskSaveEntries` appended, prior entries kept |
| Signals.AppendChanges | tasks/signals.py:92-106 | the four conditional appends add exactly the change entries of the differing fields |
| Signals.TaskSaveEntriesSpec | tasks/signals.py:87-106 | a new task gives one "created a new task" entry; a stored one gives one entry per differing field (at most 4, none iff nothing differs), all stamped now and naming the task by its old title |
| Signals.ChangedFieldsSpec | tasks/signals.py:93-106 | a field is listed iff it differs, and the list follows the order title, description, due date, completion |
| Signals.FieldsWhereSpec | tasks/signals.py:93-106 | filtering an ordered list of fields keeps exactly the differing ones and keeps their order |
| Signals.ChangeEntriesInOrder | tasks/signals.py:93-106 | the entries of the changed fields are the four conditional pieces in comparison order |
| Signals.ChangeMessageNamesTask | tasks/signals.py:95-106 | every change message contains the stored title in quotes |
| Signals.EntriesForSpec | tasks/signals.py:92-106 | there is one entry per changed field, at the same position and time |
| Signals.Recorder.TeamSave | tasks/signals.py:110-123 | with an admin, a "created a new team" entry is appended only when the team is not yet stored; an edit appends nothing |
| Signals.Recorder.TeamMembersChanged | tasks/signals.py:127-151 | succeeds iff the entries exist (no actor, or a first pk that is a member); on success the actor's log gets them appended, on failure nothing changes |
| Signals.MembershipEntriesSpec | tasks/signals.py:139-150 | an add or remove gives one entry, for the first pk only, and fails on an empty pk set or a non-member; other actions give none |
| Signals.Recorder.TaskAssignedToChanged | tasks/signals.py:154-181 | the loop appends `AssignmentEntries`; a pk that is not an assignee makes the whole change fail with every log unchanged |
| Signals.AppendAssignmentLines | tasks/signals.py:166-180 | the loop over the pk set appends exactly `AssignmentLines`, and stops with failure iff some pk is not an assignee |
| Signals.AssignmentLinesSpec | tasks/signals.py:170-180 | lines exist iff every pk is an assignee, and then there is exactly one per pk, in order |
| Signals.AssignmentEntriesSpec | tasks/signals.py:166-180 | an add or remove gives one entry per pk, in pk order; any other action gives none |
| Signals.Recorder.TaskDeleted | tasks/signals.py:185-196 | with an actor, exactly one "deleted task" entry is appended; without one nothing changes |
| Signals.Recorder.TeamDeleted | tasks/signals.py:199-210 | with an actor, exactly one "deleted team" entry is appended; without one nothing changes |
| Middleware.GetNotifications | tasks/middleware.py:14-27 | the nested loop over teams and their tasks returns exactly `Notifications` |
| Middleware.Attach | tasks/middleware.py:10 | the request's notifications become the user's notifications |
| Middleware.NotificationForSpec | tasks/middleware.py:21-26 | a task yields one reminder iff it is unseen and due soon by either test; the high text takes precedence; the id is the task's; a seen task yields none |
| Middleware.OtherMessageLabel | tasks/middleware.py:25 | the other-priority reminder names the priority by its capitalised label |
| Middleware.TaskNotificationsSpec | tasks/middleware.py:20-26 | a list of tasks gives as many reminders as it has eligible tasks, each about one of them |
| Middleware.TaskNotificationsAppend | tasks/middleware.py:18-26 | the reminders of two task lists in sequence are the first list's followed by the second's |
| Middleware.NotificationsInTeamOrder | tasks/middleware.py:18-27 | the result is the reminders of the teams' tasks taken team after team, with nothing reordered; its length is the number of eligible tasks |
| Middleware.NotificationsAboutTeamTasks | tasks/middleware.py:18-26 | every reminder's id is that of an unseen, due-soon task created by one of the user's teams |
| Middleware.NoEligibleNoNotifications | tasks/middleware.py:21-26 | tasks none of which is eligible yield no reminders |
| Middleware.AllSeenNoNotifications | tasks/middleware.py:21-24 | when every task is seen there are no reminders |
| Forms.CleanRequired | tasks/forms.py:37-46 | a required field cleans to its stripped text, or to nothing iff that is empty or holds a NUL character (the validator every `CharField` carries) |
| Forms.PasswordPatternSpec | tasks/forms.py:40-44 | on text without a newline the pattern holds iff there is an upper-case letter, a lower-case letter and a digit |
| Forms.PasswordPatternRejectsNewline | tasks/forms.py:41 | a cleaned password with a newline inside never matches |
| Forms.PasswordAccepted | tasks/forms.py:41 | "Password123" matches |
| Forms.PasswordNeedsUpper | tasks/forms.py:41 | "password123" does not match |
| Forms.PasswordNeedsLower | tasks/forms.py:41 | "PASSWORD123" does not match |
| Forms.PasswordNeedsDigit | tasks/forms.py:41 | "Password" does not match |
| Forms.NewPasswordErrorsSpec | tasks/forms.py:37-55 | no error iff the new password is non-blank, has no NUL character, matches and equals the confirmation; different values always mark the confirmation |
| Forms.PasswordFormErrorsSpec | tasks/forms.py:69-79 | the form is valid iff there is a user, a non-blank current password without NUL characters that authenticates them, and an acceptable confirmed new password; no user always marks "password" |
| Forms.NullCharacterRejected | tasks/forms.py:37-55 | a new password holding a NUL character marks both the new password and the confirmation, whatever the confirmation is |
| Forms.GetUser | tasks/forms.py:14-22 | a blank username or password, or one holding a NUL character, gives None; otherwise the result is authentication's answer on the stripped values |
| Forms.Store.PasswordSave | tasks/forms.py:81-88 | with a user the password becomes the new one and the user is written back; the user (or None) is returned; nothing else changes; stored users stay valid with unique usernames |
| Forms.Store.CreateTaskSave | tasks/forms.py:131-141 | a team id not among the user's teams fails with nothing written; otherwise one new task with the form's fields, defaults and the given owner is added; every stored task keeps a valid title and description |
| Forms.Store.CreateTeamSave | tasks/forms.py:152-158 | one new team with the cleaned name and the user as admin is added; every stored team keeps a valid name and an admin |
| Forms.Store.EditTaskSave | tasks/forms.py:173-179 | the stored task is replaced by one with the old id, owner and completion flag, the form's title, description and due date, and the default priority; the task count is unchanged |
| Forms.ReplaceKeepsCount | tasks/forms.py:175-178 | writing a record under an existing id keeps the ids and the count |
| Forms.InsertAddsOne | tasks/forms.py:139 | writing a record under a fresh id adds exactly one |
| Views.ClassifyUserSearchSpec | tasks/views.py:24-28 | two or more words search first and last name with the first two words; otherwise the whole query is compared with either name |
| Views.FindUsers | tasks/views.py:26-28 | the users found are exactly those the query matches |
| Views.FullNameFindsUser | tasks/views.py:24-26 | a user with one-word names is found by searching their full name |
| Views.ClassifyTeamSearchSpec | tasks/views.py:186-192 | the prefix search is chosen iff the query starts with "@", is one token and strips to more than one character, and its prefix is the stripped query; first-and-last iff two or more words not starting with "@" |
| Views.UsernameFindsUser | tasks/views.py:187-188 | a valid username searched on the team page is a prefix search that finds its user |
| Views.TeamFullNameFindsUser | tasks/views.py:189-190 | a full name not starting with "@" finds its user on the team page |
| Views.ChooseArrangementSpec | tasks/views.py:73-81 | a search query overrides an explicit order, which overrides the ascending/descending sort; any other sort keeps the stored order |
| Views.FilterRoundTrip | tasks/views.py:84-92 | each filter is selected by its parameter value and each selecting value is its filter's; all other values select no filter |
| Views.TeamViewSpec | tasks/views.py:73-92 | with a search and a filter a team shows exactly its tasks that mention the query and pass the filter; with neither it shows its tasks as stored |
| Views.ArrangeTeamTasks | tasks/views.py:73-92 | one pass arranges and filters a team's tasks as `TeamView` says |
| Views.DashboardTeamTasks | tasks/views.py:65-95 | the result pairs each team, in order, with its arranged and filtered tasks |
| Views.CompletionAfterPost | tasks/views.py:249-253 | posting "Completed" clears the flag, any other value sets it, and nothing else changes |
| Views.CompletionToggles | tasks/views.py:249-253 | posting the label of the task's current state flips the flag; only the flag changes |
| Views.PermissionSpec | tasks/views.py:310-311 | the admin can always mark complete; a non-admin can iff assigned; a team without admin has no admin |
| Views.WithoutAssigneeSpec | tasks/views.py:217-221 | afterwards the member is assigned to no task and every other assignment is unchanged |
| Views.Workspace.RemoveMember | tasks/views.py:207-223 | a missing team or member is not found; a non-admin or an empty name changes nothing; the admin removes the member from the team and its teams when present, and from every task's assignees; the mirrored member relation is preserved |
| Views.Workspace.UnassignEverywhere | tasks/views.py:217-221 | the loop removes the member from exactly the tasks they were assigned to |
| Views.SeenBySpec | tasks/views.py:231-235 | a notification is deleted only by the user it is for; no other one is ever deleted |
| Views.Workspace.MarkAsSeen | tasks/views.py:231-237 | a missing id is not found and changes nothing; otherwise the notifications become `SeenBy` |

## Left out

- `get_requested_user` walks the Python call stack to find the acting
  user. The actor is an `Option<User>` parameter instead.
- `datetime.now()`, `date.today()`, `strftime` and `strptime` are not
  modelled. Time is whole seconds and dates are day numbers. Printing a
  due date is the `dateText` parameter.
- The `eval` of the completion flag in `task_save` is not modelled. The
  flag is a plain bool.
- The Django ORM is not modelled: queries, persistence, cascades, and the
  firing of signals from views and forms. Relations are maps and
  sequences, and a `pk_set` is a sequence in its iteration order.
  Composing the recorder with the view and form methods that trigger it
  is not modelled.
- `order_by` is the parameter `orderBy`. The model does not define the
  database's ordering.
- The following are not modelled:
  - HTTP handling, rendering, redirects, messages, pagination and URL
    routing;
  - the debug print in the middleware;
  - the `due_dates` and task-notification lists the dashboard also
    builds for its template.
- `show_team`'s fallback that creates a "Test Team" is left out, and so
  are its member-add branch and `notification_hub`.
- Authentication, password hashing and Gravatar URLs are foreign library
  calls. Authentication is a parameter, and a changed password is stored
  as given.
- `seen`, `is_other_priority_due_soon`, a per-task reminder window, and
  the time-tracking and notification models are referenced but not part
  of this model. The two tests the middleware calls are uninterpreted
  parameters.
- Username `\w`, `capitalize()` and case-insensitive lookups are modelled
  on ASCII letters only. This matches SQLite's LIKE; Unicode case folding
  is not modelled.
- Anonymous users are not modelled in the middleware. The user's teams
  are given as a sequence of team ids.
- The validation pass of the task and team forms is not modelled. The
  `save` methods take the cleaned values and require what that pass
  guarantees: the `Models` validity predicates. `Store.Valid` keeps every
  stored record within them.
- `SignUpForm` and `UserForm` are left out, because the core does not
  include them.
