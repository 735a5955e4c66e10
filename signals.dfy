/**
 * The activity-log recorder: the signal handlers that keep, for every user,
 * one log of `(message, timestamp)` entries, created on first use and then
 * appended to as the user logs in and out, signs up, edits their details,
 * creates, edits and deletes tasks and teams, and changes team membership
 * and task assignment.
 *
 * The acting user is an explicit `Option<User>` parameter (`None` when no
 * actor is found), the clock is `now` in whole seconds (the stored
 * timestamps keep whole seconds), and a due date is rendered by the
 * `dateText` parameter. What the ORM would look up — whether a record is
 * already stored, the stored version of a task, the current members or
 * assignees with their usernames — is passed in as plain values.
 */
module Signals {
  import opened Common
  import opened Models

  /** One log line: a message and the second it was recorded at. */
  datatype Entry = Entry(message: string, time: int)

  /** A login within this many seconds of the last entry replaces that entry. */
  const LoginWindow := 2

  /** The `action` argument of an `m2m_changed` signal. */
  datatype Action = PreAdd | PostAdd | PreRemove | PostRemove | PreClear | PostClear

  /** The task fields whose changes are logged, in the order they are compared. */
  datatype Field = Title | Description | DueDate | Completion

  const FieldOrder: seq<Field> := [Title, Description, DueDate, Completion]

  function LoggedInMessage(username: string): string { username + " has logged in" }
  function LoggedOutMessage(username: string): string { username + " has logged out" }
  function SignedUpMessage(username: string): string { username + " signed up" }
  function EditedDetailsMessage(username: string): string { username + " edited their user details" }

  /** A name between single quotes, as the messages print task titles and team names. */
  function Quoted(s: string): string { "'" + s + "'" }

  function CreatedTaskMessage(actor: string, title: string): string {
    actor + " created a new task with title " + Quoted(title)
  }

  function CreatedTeamMessage(actor: string, teamName: string): string {
    actor + " created a new team " + Quoted(teamName)
  }

  function AddedMemberMessage(actor: string, member: string, teamName: string): string {
    actor + " added " + member + " to " + Quoted(teamName)
  }

  function RemovedMemberMessage(actor: string, member: string, teamName: string): string {
    actor + " removed " + member + " from " + Quoted(teamName)
  }

  function AssignedMessage(actor: string, member: string, title: string): string {
    actor + " assigned " + member + " to the task " + Quoted(title)
  }

  function UnassignedMessage(actor: string, member: string, title: string): string {
    actor + " removed " + member + " from the task " + Quoted(title)
  }

  function DeletedTaskMessage(actor: string, title: string): string { actor + " deleted task " + title }
  function DeletedTeamMessage(actor: string, teamName: string): string { actor + " deleted team " + teamName }

  function CompletionText(completed: bool): string {
    if completed then "Complete" else "Incomplete"
  }

  /** The message for a change of field `f`; every one names the task by its stored title. */
  function ChangeMessage(f: Field, actor: string, stored: Task, task: Task, dateText: int -> string): string {
    match f
    case Title => actor + " changed task " + Quoted(stored.title) + ("s title to " + task.title)
    case Description => actor + " changed task " + Quoted(stored.title) + ("s description to " + task.description)
    case DueDate => actor + " updated task " + Quoted(stored.title) + ("s due date to " + dateText(task.dueDate))
    case Completion => actor + " marked " + Quoted(stored.title) + (" as " + CompletionText(task.completed))
  }

  predicate Differs(f: Field, stored: Task, task: Task) {
    match f
    case Title => stored.title != task.title
    case Description => stored.description != task.description
    case DueDate => stored.dueDate != task.dueDate
    case Completion => stored.completed != task.completed
  }

  /** The fields of `fs` on which the two versions differ, in the order of `fs`. */
  function FieldsWhere(fs: seq<Field>, stored: Task, task: Task): seq<Field> {
    if fs == [] then []
    else (if Differs(fs[0], stored, task) then [fs[0]] else []) + FieldsWhere(fs[1..], stored, task)
  }

  function ChangedFields(stored: Task, task: Task): seq<Field> {
    FieldsWhere(FieldOrder, stored, task)
  }

  /** Position of a field in the comparison order. */
  function Rank(f: Field): nat {
    match f
    case Title => 0
    case Description => 1
    case DueDate => 2
    case Completion => 3
  }

  /** The filter keeps exactly the differing fields, once each, and keeps their order. */
  lemma {:induction false} FieldsWhereSpec(fs: seq<Field>, stored: Task, task: Task)
    requires forall i, j :: 0 <= i < j < |fs| ==> Rank(fs[i]) < Rank(fs[j])
    ensures forall f :: f in FieldsWhere(fs, stored, task) <==> f in fs && Differs(f, stored, task)
    ensures forall i, j :: 0 <= i < j < |FieldsWhere(fs, stored, task)| ==>
      Rank(FieldsWhere(fs, stored, task)[i]) < Rank(FieldsWhere(fs, stored, task)[j])
    ensures |FieldsWhere(fs, stored, task)| <= |fs|
  {
    if fs != [] {
      FieldsWhereSpec(fs[1..], stored, task);
      var rest := FieldsWhere(fs[1..], stored, task);
      forall g | g in rest ensures Rank(fs[0]) < Rank(g) {
        var k :| 0 <= k < |fs[1..]| && fs[1..][k] == g;
        assert fs[k + 1] == g;
      }
    }
  }

  /**
   * A stored task and its new version differ in the fields `ChangedFields`
   * names: each differing field appears once, no other field appears, and
   * they come in the order title, description, due date, completion.
   */
  lemma ChangedFieldsSpec(stored: Task, task: Task)
    ensures forall f :: f in ChangedFields(stored, task) <==> Differs(f, stored, task)
    ensures forall i, j :: 0 <= i < j < |ChangedFields(stored, task)| ==>
      Rank(ChangedFields(stored, task)[i]) < Rank(ChangedFields(stored, task)[j])
    ensures |ChangedFields(stored, task)| <= 4
    ensures ChangedFields(stored, task) == [] <==>
      stored.title == task.title && stored.description == task.description
      && stored.dueDate == task.dueDate && stored.completed == task.completed
  {
    FieldOrderRanked();
    FieldsWhereSpec(FieldOrder, stored, task);
    ChangedFieldsEmpty(stored, task);
  }

  lemma FieldOrderRanked()
    ensures forall i, j :: 0 <= i < j < |FieldOrder| ==> Rank(FieldOrder[i]) < Rank(FieldOrder[j])
  {
  }

  lemma ChangedFieldsEmpty(stored: Task, task: Task)
    ensures ChangedFields(stored, task) == [] <==>
      stored.title == task.title && stored.description == task.description
      && stored.dueDate == task.dueDate && stored.completed == task.completed
  {
    ChangedFieldsUnfold(stored, task);
  }

  /** One entry per field of `fs`, in order, all with the same timestamp. */
  function EntriesFor(fs: seq<Field>, actor: string, stored: Task, task: Task, now: int, dateText: int -> string): seq<Entry> {
    if fs == [] then []
    else [Entry(ChangeMessage(fs[0], actor, stored, task, dateText), now)] + EntriesFor(fs[1..], actor, stored, task, now, dateText)
  }

  lemma {:induction false} EntriesForSpec(fs: seq<Field>, actor: string, stored: Task, task: Task, now: int, dateText: int -> string)
    ensures |EntriesFor(fs, actor, stored, task, now, dateText)| == |fs|
    ensures forall i :: 0 <= i < |fs| ==>
      EntriesFor(fs, actor, stored, task, now, dateText)[i] == Entry(ChangeMessage(fs[i], actor, stored, task, dateText), now)
  {
    if fs != [] {
      EntriesForSpec(fs[1..], actor, stored, task, now, dateText);
    }
  }

  lemma {:induction false} EntriesForAppend(a: seq<Field>, b: seq<Field>, actor: string, stored: Task, task: Task, now: int, dateText: int -> string)
    ensures EntriesFor(a + b, actor, stored, task, now, dateText)
      == EntriesFor(a, actor, stored, task, now, dateText) + EntriesFor(b, actor, stored, task, now, dateText)
  {
    if a != [] {
      assert (a + b)[1..] == a[1..] + b;
      EntriesForAppend(a[1..], b, actor, stored, task, now, dateText);
    } else {
      assert a + b == b;
    }
  }

  function ChangeEntries(actor: string, stored: Task, task: Task, now: int, dateText: int -> string): seq<Entry> {
    EntriesFor(ChangedFields(stored, task), actor, stored, task, now, dateText)
  }

  /** What saving `task` adds to the actor's log, given the stored version if there is one. */
  function TaskSaveEntries(actor: string, stored: Option<Task>, task: Task, now: int, dateText: int -> string): seq<Entry> {
    match stored
    case None => [Entry(CreatedTaskMessage(actor, task.title), now)]
    case Some(s) => ChangeEntries(actor, s, task, now, dateText)
  }

  /**
   * Saving a new task logs exactly one creation entry. Saving a stored task
   * logs one entry per changed field, at most four, none when nothing
   * changed, all stamped `now` and all naming the task by its stored title.
   */
  lemma TaskSaveEntriesSpec(actor: string, stored: Option<Task>, task: Task, now: int, dateText: int -> string)
    ensures stored.None? ==> TaskSaveEntries(actor, stored, task, now, dateText) == [Entry(CreatedTaskMessage(actor, task.title), now)]
    ensures stored.Some? ==> |TaskSaveEntries(actor, stored, task, now, dateText)| == |ChangedFields(stored.value, task)| <= 4
    ensures stored.Some? ==> (TaskSaveEntries(actor, stored, task, now, dateText) == [] <==>
      stored.value.title == task.title && stored.value.description == task.description
      && stored.value.dueDate == task.dueDate && stored.value.completed == task.completed)
    ensures forall e :: e in TaskSaveEntries(actor, stored, task, now, dateText) ==> e.time == now
    ensures stored.Some? ==> forall e :: e in TaskSaveEntries(actor, stored, task, now, dateText) ==>
      Text.Contains(e.message, Quoted(stored.value.title))
  {
    if stored.Some? {
      var s := stored.value;
      ChangedFieldsSpec(s, task);
      var es := TaskSaveEntries(actor, stored, task, now, dateText);
      EntriesForSpec(ChangedFields(s, task), actor, s, task, now, dateText);
      forall e | e in es ensures Text.Contains(e.message, Quoted(s.title)) {
        var k :| 0 <= k < |es| && es[k] == e;
        ChangeMessageNamesTask(ChangedFields(s, task)[k], actor, s, task, dateText);
      }
    }
  }

  lemma ChangeMessageNamesTask(f: Field, actor: string, stored: Task, task: Task, dateText: int -> string)
    ensures Text.Contains(ChangeMessage(f, actor, stored, task, dateText), Quoted(stored.title))
  {
    var q := Quoted(stored.title);
    match f
    case Title => Text.ContainsMiddle(actor + " changed task ", q, "s title to " + task.title);
    case Description => Text.ContainsMiddle(actor + " changed task ", q, "s description to " + task.description);
    case DueDate => Text.ContainsMiddle(actor + " updated task ", q, "s due date to " + dateText(task.dueDate));
    case Completion => Text.ContainsMiddle(actor + " marked ", q, " as " + CompletionText(task.completed));
  }

  /** The log after a login: a last entry younger than the window is dropped, then the login is appended. */
  function AfterLogin(log: seq<Entry>, username: string, now: int): seq<Entry> {
    var kept := if |log| > 0 && now - log[|log| - 1].time < LoginWindow then log[..|log| - 1] else log;
    kept + [Entry(LoggedInMessage(username), now)]
  }

  /**
   * A login ends the log with one login entry at `now`. Every earlier entry
   * but possibly the last is kept in place; the last is dropped exactly when
   * it is less than two seconds old, so the length grows by one or stays.
   */
  lemma AfterLoginSpec(log: seq<Entry>, username: string, now: int)
    ensures var r := AfterLogin(log, username, now);
      && r != [] && r[|r| - 1] == Entry(LoggedInMessage(username), now)
      && (|r| == |log| + 1 || |r| == |log|)
      && (|r| == |log| <==> log != [] && now - log[|log| - 1].time < LoginWindow)
      && r[..|r| - 1] <= log
      && (|r| == |log| + 1 ==> r[..|log|] == log)
  {
  }

  /** What the membership handler adds, or `None` where it raises: an empty pk set, or a first pk that is not a member. */
  function MembershipEntries(actor: string, teamName: string, action: Action, pkSet: seq<nat>, members: map<nat, string>, now: int): Option<seq<Entry>> {
    if action == PostAdd || action == PreRemove then
      if pkSet == [] || pkSet[0] !in members then None
      else
        var member := members[pkSet[0]];
        Some([Entry(if action == PostAdd then AddedMemberMessage(actor, member, teamName)
                    else RemovedMemberMessage(actor, member, teamName), now)])
    else Some([])
  }

  /**
   * A membership change logs one entry for an add or a remove and none for
   * any other action; only the first pk counts, and a change fails when
   * there is no first pk or it is not a member.
   */
  lemma MembershipEntriesSpec(actor: string, teamName: string, action: Action, pkSet: seq<nat>, members: map<nat, string>, now: int)
    ensures action != PostAdd && action != PreRemove ==> MembershipEntries(actor, teamName, action, pkSet, members, now) == Some([])
    ensures action == PostAdd || action == PreRemove ==>
      (MembershipEntries(actor, teamName, action, pkSet, members, now).None? <==> pkSet == [] || pkSet[0] !in members)
    ensures action == PostAdd && pkSet != [] && pkSet[0] in members ==>
      MembershipEntries(actor, teamName, action, pkSet, members, now) == Some([Entry(AddedMemberMessage(actor, members[pkSet[0]], teamName), now)])
    ensures action == PreRemove && pkSet != [] && pkSet[0] in members ==>
      MembershipEntries(actor, teamName, action, pkSet, members, now) == Some([Entry(RemovedMemberMessage(actor, members[pkSet[0]], teamName), now)])
    ensures pkSet != [] ==>
      MembershipEntries(actor, teamName, action, pkSet, members, now) == MembershipEntries(actor, teamName, action, pkSet[..1], members, now)
  {
  }

  function AssignmentMessage(adding: bool, actor: string, member: string, title: string): string {
    if adding then AssignedMessage(actor, member, title) else UnassignedMessage(actor, member, title)
  }

  /** One entry per pk, in order, or `None` when some pk is not an assignee. */
  function AssignmentLines(adding: bool, actor: string, title: string, pks: seq<nat>, assignees: map<nat, string>, now: int): Option<seq<Entry>> {
    if pks == [] then Some([])
    else
      var init := AssignmentLines(adding, actor, title, pks[..|pks| - 1], assignees, now);
      var pk := pks[|pks| - 1];
      if init.None? || pk !in assignees then None
      else Some(init.value + [Entry(AssignmentMessage(adding, actor, assignees[pk], title), now)])
  }

  /** What the assignment handler adds, or `None` where it raises. */
  function AssignmentEntries(actor: string, title: string, action: Action, pkSet: seq<nat>, assignees: map<nat, string>, now: int): Option<seq<Entry>> {
    if action == PostAdd then AssignmentLines(true, actor, title, pkSet, assignees, now)
    else if action == PreRemove then AssignmentLines(false, actor, title, pkSet, assignees, now)
    else Some([])
  }

  /** The assignment lines exist exactly when every pk is an assignee, and then there is one per pk, in order. */
  lemma {:induction false} AssignmentLinesSpec(adding: bool, actor: string, title: string, pks: seq<nat>, assignees: map<nat, string>, now: int)
    ensures AssignmentLines(adding, actor, title, pks, assignees, now).Some? <==> forall i :: 0 <= i < |pks| ==> pks[i] in assignees
    ensures AssignmentLines(adding, actor, title, pks, assignees, now).Some? ==>
      var es := AssignmentLines(adding, actor, title, pks, assignees, now).value;
      |es| == |pks| && forall i :: 0 <= i < |pks| ==> es[i] == Entry(AssignmentMessage(adding, actor, assignees[pks[i]], title), now)
    decreases |pks|
  {
    if pks != [] {
      var init := pks[..|pks| - 1];
      AssignmentLinesSpec(adding, actor, title, init, assignees, now);
      assert forall i :: 0 <= i < |init| ==> init[i] == pks[i];
    }
  }

  /**
   * An assignment change logs one entry per pk for an add or a remove, and
   * none for any other action.
   */
  lemma AssignmentEntriesSpec(actor: string, title: string, action: Action, pkSet: seq<nat>, assignees: map<nat, string>, now: int)
    ensures action != PostAdd && action != PreRemove ==> AssignmentEntries(actor, title, action, pkSet, assignees, now) == Some([])
    ensures action == PostAdd || action == PreRemove ==>
      (AssignmentEntries(actor, title, action, pkSet, assignees, now).Some? <==> forall i :: 0 <= i < |pkSet| ==> pkSet[i] in assignees)
    ensures action == PostAdd || action == PreRemove ==>
      AssignmentEntries(actor, title, action, pkSet, assignees, now).Some? ==>
      var es := AssignmentEntries(actor, title, action, pkSet, assignees, now).value;
      |es| == |pkSet| && forall i :: 0 <= i < |pkSet| ==>
        es[i] == Entry(AssignmentMessage(action == PostAdd, actor, assignees[pkSet[i]], title), now)
  {
    if action == PostAdd || action == PreRemove {
      AssignmentLinesSpec(action == PostAdd, actor, title, pkSet, assignees, now);
    }
  }

  /**
   * The loop of `task_assigned_to_changed`: one line per pk is appended to
   * `log`; the first pk that is not an assignee stops it with `ok` false.
   */
  method AppendAssignmentLines(log: seq<Entry>, adding: bool, actor: string, title: string, pkSet: seq<nat>,
                               assignees: map<nat, string>, now: int)
    returns (ok: bool, r: seq<Entry>)
    ensures ok == AssignmentLines(adding, actor, title, pkSet, assignees, now).Some?
    ensures ok ==> r == log + AssignmentLines(adding, actor, title, pkSet, assignees, now).value
  {
    r := log;
    var i := 0;
    while i < |pkSet|
      invariant 0 <= i <= |pkSet|
      invariant AssignmentLines(adding, actor, title, pkSet[..i], assignees, now).Some?
      invariant r == log + AssignmentLines(adding, actor, title, pkSet[..i], assignees, now).value
    {
      var pk := pkSet[i];
      if pk !in assignees {
        AssignmentLinesSpec(adding, actor, title, pkSet, assignees, now);
        return false, r;
      }
      r := r + [Entry(AssignmentMessage(adding, actor, assignees[pk], title), now)];
      assert pkSet[..i + 1][..i] == pkSet[..i];
      i := i + 1;
    }
    assert pkSet[..i] == pkSet;
    ok := true;
  }

  /**
   * The field-by-field comparison of `task_save`: one entry is appended for
   * each of title, description, due date and completion that changed.
   */
  method AppendChanges(log: seq<Entry>, actor: string, stored: Task, task: Task, now: int, dateText: int -> string)
    returns (r: seq<Entry>)
    ensures r == log + ChangeEntries(actor, stored, task, now, dateText)
  {
    r := log;
    if stored.title != task.title {
      r := r + [Entry(ChangeMessage(Title, actor, stored, task, dateText), now)];
    }
    ghost var e1 := EntryIf(Differs(Title, stored, task), Title, actor, stored, task, now, dateText);
    assert r == log + e1;
    if stored.description != task.description {
      r := r + [Entry(ChangeMessage(Description, actor, stored, task, dateText), now)];
    }
    ghost var e2 := EntryIf(Differs(Description, stored, task), Description, actor, stored, task, now, dateText);
    assert r == log + e1 + e2;
    if stored.dueDate != task.dueDate {
      r := r + [Entry(ChangeMessage(DueDate, actor, stored, task, dateText), now)];
    }
    ghost var e3 := EntryIf(Differs(DueDate, stored, task), DueDate, actor, stored, task, now, dateText);
    assert r == log + e1 + e2 + e3;
    if stored.completed != task.completed {
      r := r + [Entry(ChangeMessage(Completion, actor, stored, task, dateText), now)];
    }
    ghost var e4 := EntryIf(Differs(Completion, stored, task), Completion, actor, stored, task, now, dateText);
    assert r == log + e1 + e2 + e3 + e4;
    ChangeEntriesInOrder(actor, stored, task, now, dateText);
    AppendFour(log, e1, e2, e3, e4);
  }

  lemma AppendFour<T>(s: seq<T>, a: seq<T>, b: seq<T>, c: seq<T>, d: seq<T>)
    ensures s + (a + b + c + d) == s + a + b + c + d
  {
  }

  /** The `Activity_Log` table: one log per user id. */
  class Recorder {
    var logs: map<nat, seq<Entry>>

    /** No user has a log yet. */
    constructor ()
      ensures logs == map[]
    {
      logs := map[];
    }

    /** The user's log, empty when none exists yet. */
    function LogOf(user: nat): seq<Entry>
      reads this
    {
      if user in logs then logs[user] else []
    }

    /** `get_activity_log`: the user's existing log, or a new empty one that is stored. */
    method GetActivityLog(user: User) returns (log: seq<Entry>)
      modifies this
      ensures old(user.id in logs) ==> log == old(logs[user.id]) && logs == old(logs)
      ensures old(user.id !in logs) ==> log == [] && logs == old(logs)[user.id := []]
    {
      if user.id in logs {
        log := logs[user.id];
      } else {
        log := [];
        logs := logs[user.id := log];
      }
    }

    /** `activity_log.save()`. */
    method Save(user: User, log: seq<Entry>)
      modifies this
      ensures logs == old(logs)[user.id := log]
    {
      logs := logs[user.id := log];
    }

    /** Appends entries to the user's log (fetching or creating it first) and saves it. */
    method Record(user: User, entries: seq<Entry>)
      modifies this
      ensures logs == old(logs)[user.id := old(LogOf(user.id)) + entries]
    {
      var log := GetActivityLog(user);
      log := log + entries;
      Save(user, log);
    }

    /** `user_has_logged_in`. */
    method UserHasLoggedIn(user: Option<User>, now: int)
      modifies this
      ensures user.None? ==> logs == old(logs)
      ensures user.Some? ==> logs == old(logs)[user.value.id := AfterLogin(old(LogOf(user.value.id)), user.value.username, now)]
    {
      if user.Some? {
        var u := user.value;
        var log := GetActivityLog(u);
        if |log| > 0 {
          var last := log[|log| - 1].time;
          if now - last < LoginWindow {
            log := log[..|log| - 1];
          }
        }
        log := log + [Entry(LoggedInMessage(u.username), now)];
        Save(u, log);
      }
    }

    /** `user_has_logged_out`. */
    method UserHasLoggedOut(user: Option<User>, now: int)
      modifies this
      ensures user.None? ==> logs == old(logs)
      ensures user.Some? ==> logs == old(logs)[user.value.id := old(LogOf(user.value.id)) + [Entry(LoggedOutMessage(user.value.username), now)]]
    {
      if user.Some? {
        Record(user.value, [Entry(LoggedOutMessage(user.value.username), now)]);
      }
    }

    /** `user_save`: a new user signed up, an existing one edited their details. */
    method UserSave(user: User, created: bool, now: int)
      modifies this
      ensures logs == old(logs)[user.id := old(LogOf(user.id)) +
        [Entry(if created then SignedUpMessage(user.username) else EditedDetailsMessage(user.username), now)]]
    {
      var log := GetActivityLog(user);
      if created {
        log := log + [Entry(SignedUpMessage(user.username), now)];
      } else {
        log := log + [Entry(EditedDetailsMessage(user.username), now)];
      }
      Save(user, log);
    }

    /**
     * `task_save`, before `task` is written: `stored` is the version already
     * in the database, `None` for a new task.
     */
    method TaskSave(actor: Option<User>, stored: Option<Task>, task: Task, now: int, dateText: int -> string)
      modifies this
      ensures actor.None? ==> logs == old(logs)
      ensures actor.Some? ==> logs == old(logs)[actor.value.id :=
        old(LogOf(actor.value.id)) + TaskSaveEntries(actor.value.username, stored, task, now, dateText)]
    {
      if actor.Some? {
        var u := actor.value;
        var log := GetActivityLog(u);
        if stored.None? {
          log := log + [Entry(CreatedTaskMessage(u.username, task.title), now)];
        } else {
          log := AppendChanges(log, u.username, stored.value, task, now, dateText);
        }
        Save(u, log);
      }
    }

    /** `team_save`, before the team is written: only a team not yet stored is logged, to its admin. */
    method TeamSave(admin: Option<User>, teamName: string, persisted: bool, now: int)
      modifies this
      ensures admin.None? ==> logs == old(logs)
      ensures admin.Some? ==> logs == old(logs)[admin.value.id := old(LogOf(admin.value.id)) +
        (if persisted then [] else [Entry(CreatedTeamMessage(admin.value.username, teamName), now)])]
    {
      if admin.Some? {
        var u := admin.value;
        var log := GetActivityLog(u);
        if !persisted {
          log := log + [Entry(CreatedTeamMessage(u.username, teamName), now)];
        } else {
          assert log + [] == log;
        }
        Save(u, log);
      }
    }

    /**
     * `team_members_changed`. `members` maps each current member's pk to
     * their username. The handler raises on an empty pk set or a first pk
     * that is not a member; the change runs in a transaction, so then
     * nothing is recorded and `ok` is false.
     */
    method TeamMembersChanged(actor: Option<User>, teamName: string, action: Action, pkSet: seq<nat>, members: map<nat, string>, now: int)
      returns (ok: bool)
      modifies this
      ensures actor.None? ==> ok && logs == old(logs)
      ensures actor.Some? ==> ok == MembershipEntries(actor.value.username, teamName, action, pkSet, members, now).Some?
      ensures !ok ==> logs == old(logs)
      ensures actor.Some? && ok ==> logs == old(logs)[actor.value.id :=
        old(LogOf(actor.value.id)) + MembershipEntries(actor.value.username, teamName, action, pkSet, members, now).value]
    {
      ok := true;
      if actor.Some? {
        var u := actor.value;
        var before := logs;
        var log := GetActivityLog(u);
        if action == PostAdd || action == PreRemove {
          if pkSet == [] || pkSet[0] !in members {
            ok := false;
            logs := before;
            return;
          }
          var member := members[pkSet[0]];
          if action == PostAdd {
            log := log + [Entry(AddedMemberMessage(u.username, member, teamName), now)];
          } else {
            log := log + [Entry(RemovedMemberMessage(u.username, member, teamName), now)];
          }
        } else {
          assert log + [] == log;
        }
        Save(u, log);
      }
    }

    /**
     * `task_assigned_to_changed`. `assignees` maps each current assignee's
     * pk to their username. One entry per pk is appended for an add or a
     * remove; a pk that is not an assignee raises, and the transaction
     * leaves every log as it was.
     */
    method TaskAssignedToChanged(actor: Option<User>, title: string, action: Action, pkSet: seq<nat>, assignees: map<nat, string>, now: int)
      returns (ok: bool)
      modifies this
      ensures actor.None? ==> ok && logs == old(logs)
      ensures actor.Some? ==> ok == AssignmentEntries(actor.value.username, title, action, pkSet, assignees, now).Some?
      ensures !ok ==> logs == old(logs)
      ensures actor.Some? && ok ==> logs == old(logs)[actor.value.id :=
        old(LogOf(actor.value.id)) + AssignmentEntries(actor.value.username, title, action, pkSet, assignees, now).value]
    {
      ok := true;
      if actor.Some? {
        var u := actor.value;
        var before := logs;
        var log := GetActivityLog(u);
        if action == PostAdd || action == PreRemove {
          ok, log := AppendAssignmentLines(log, action == PostAdd, u.username, title, pkSet, assignees, now);
          if !ok {
            logs := before;
            return;
          }
        } else {
          assert log + [] == log;
        }
        Save(u, log);
      }
    }

    /** `task_deleted`. */
    method TaskDeleted(actor: Option<User>, title: string, now: int)
      modifies this
      ensures actor.None? ==> logs == old(logs)
      ensures actor.Some? ==> logs == old(logs)[actor.value.id :=
        old(LogOf(actor.value.id)) + [Entry(DeletedTaskMessage(actor.value.username, title), now)]]
    {
      if actor.Some? {
        Record(actor.value, [Entry(DeletedTaskMessage(actor.value.username, title), now)]);
      }
    }

    /** `team_deleted`. */
    method TeamDeleted(actor: Option<User>, teamName: string, now: int)
      modifies this
      ensures actor.None? ==> logs == old(logs)
      ensures actor.Some? ==> logs == old(logs)[actor.value.id :=
        old(LogOf(actor.value.id)) + [Entry(DeletedTeamMessage(actor.value.username, teamName), now)]]
    {
      if actor.Some? {
        Record(actor.value, [Entry(DeletedTeamMessage(actor.value.username, teamName), now)]);
      }
    }
  }

  /** The filter over the fixed field order, written out as four conditional pieces. */
  lemma ChangedFieldsUnfold(stored: Task, task: Task)
    ensures ChangedFields(stored, task) ==
      FieldIf(Differs(Title, stored, task), Title) + FieldIf(Differs(Description, stored, task), Description)
      + FieldIf(Differs(DueDate, stored, task), DueDate) + FieldIf(Differs(Completion, stored, task), Completion)
  {
    var c := FieldIf(Differs(Completion, stored, task), Completion);
    var u := FieldIf(Differs(DueDate, stored, task), DueDate);
    var d := FieldIf(Differs(Description, stored, task), Description);
    var t := FieldIf(Differs(Title, stored, task), Title);
    assert [Completion][1..] == [];
    assert FieldsWhere([Completion], stored, task) == c + [];
    assert [DueDate, Completion][1..] == [Completion];
    assert FieldsWhere([DueDate, Completion], stored, task) == u + c;
    assert [Description, DueDate, Completion][1..] == [DueDate, Completion];
    assert FieldsWhere([Description, DueDate, Completion], stored, task) == d + (u + c);
    assert FieldOrder[1..] == [Description, DueDate, Completion];
    assert FieldsWhere(FieldOrder, stored, task) == t + (d + (u + c));
  }

  /** The entries for a one-field-or-none piece. */
  function EntryIf(b: bool, f: Field, actor: string, stored: Task, task: Task, now: int, dateText: int -> string): seq<Entry> {
    if b then [Entry(ChangeMessage(f, actor, stored, task, dateText), now)] else []
  }

  function FieldIf(b: bool, f: Field): seq<Field> {
    if b then [f] else []
  }

  lemma EntriesForPiece(b: bool, f: Field, actor: string, stored: Task, task: Task, now: int, dateText: int -> string)
    ensures EntriesFor(FieldIf(b, f), actor, stored, task, now, dateText) == EntryIf(b, f, actor, stored, task, now, dateText)
  {
    if b {
      assert [f][1..] == [];
    }
  }

  /** The entries for the changed fields, taken field by field. */
  lemma ChangeEntriesAsPieces(actor: string, stored: Task, task: Task, now: int, dateText: int -> string)
    ensures ChangeEntries(actor, stored, task, now, dateText) ==
      EntriesFor(FieldIf(Differs(Title, stored, task), Title), actor, stored, task, now, dateText)
      + EntriesFor(FieldIf(Differs(Description, stored, task), Description), actor, stored, task, now, dateText)
      + EntriesFor(FieldIf(Differs(DueDate, stored, task), DueDate), actor, stored, task, now, dateText)
      + EntriesFor(FieldIf(Differs(Completion, stored, task), Completion), actor, stored, task, now, dateText)
  {
    ChangedFieldsUnfold(stored, task);
    var t := FieldIf(Differs(Title, stored, task), Title);
    var d := FieldIf(Differs(Description, stored, task), Description);
    var u := FieldIf(Differs(DueDate, stored, task), DueDate);
    var c := FieldIf(Differs(Completion, stored, task), Completion);
    EntriesForAppend(t + d + u, c, actor, stored, task, now, dateText);
    EntriesForAppend(t + d, u, actor, stored, task, now, dateText);
    EntriesForAppend(t, d, actor, stored, task, now, dateText);
  }

  /** The four conditional appends of `task_save` produce exactly `ChangeEntries`. */
  lemma ChangeEntriesInOrder(actor: string, stored: Task, task: Task, now: int, dateText: int -> string)
    ensures ChangeEntries(actor, stored, task, now, dateText) ==
      EntryIf(Differs(Title, stored, task), Title, actor, stored, task, now, dateText)
      + EntryIf(Differs(Description, stored, task), Description, actor, stored, task, now, dateText)
      + EntryIf(Differs(DueDate, stored, task), DueDate, actor, stored, task, now, dateText)
      + EntryIf(Differs(Completion, stored, task), Completion, actor, stored, task, now, dateText)
  {
    ChangeEntriesAsPieces(actor, stored, task, now, dateText);
    EntriesForPiece(Differs(Title, stored, task), Title, actor, stored, task, now, dateText);
    EntriesForPiece(Differs(Description, stored, task), Description, actor, stored, task, now, dateText);
    EntriesForPiece(Differs(DueDate, stored, task), DueDate, actor, stored, task, now, dateText);
    EntriesForPiece(Differs(Completion, stored, task), Completion, actor, stored, task, now, dateText);
  }
}
