/**
 * The notification middleware: before each request is handled it collects,
 * team by team over the requesting user's teams and task by task over the
 * tasks each team created, a reminder for every unseen task that is due
 * soon, and attaches the list to the request.
 *
 * Whether a task has been seen and the "other priority due soon" test are
 * not defined by the task model itself; both are parameters here. A due
 * date is rendered by the `dateText` parameter.
 */
module Middleware {
  import opened Common
  import opened Text
  import opened Models

  /** A reminder's text and the id of the task it is about. */
  datatype Notification = Notification(message: string, taskId: nat)

  function HighMessage(t: Task, dateText: int -> string): string {
    "Reminder: High priority task '" + t.title + "' is due on " + dateText(t.dueDate) + "."
  }

  function OtherMessage(t: Task, dateText: int -> string): string {
    "Reminder: " + Capitalize(PriorityValue(t.priority)) + " priority task '" + t.title + "' is due on " + dateText(t.dueDate) + "."
  }

  /** The other-priority reminder names the priority by its choice label. */
  lemma OtherMessageLabel(t: Task, dateText: int -> string)
    ensures OtherMessage(t, dateText) ==
      "Reminder: " + PriorityLabel(t.priority) + " priority task '" + t.title + "' is due on " + dateText(t.dueDate) + "."
  {
    CapitalizedPriority(t.priority);
  }

  /** A task yields a reminder when it is unseen and either test holds. */
  predicate Eligible(t: Task, today: int, seen: Task -> bool, otherDueSoon: Task -> bool) {
    !seen(t) && (IsHighPriorityDueSoon(t, today) || otherDueSoon(t))
  }

  /** The reminder for one task, the high-priority test taking precedence. */
  function NotificationFor(t: Task, today: int, seen: Task -> bool, otherDueSoon: Task -> bool, dateText: int -> string): Option<Notification> {
    if !seen(t) && IsHighPriorityDueSoon(t, today) then Some(Notification(HighMessage(t, dateText), t.id))
    else if !seen(t) && otherDueSoon(t) then Some(Notification(OtherMessage(t, dateText), t.id))
    else None
  }

  /**
   * A task has a reminder exactly when it is eligible; the reminder carries
   * its id, and uses the other-priority text only when the high-priority
   * test fails. A seen task never has one.
   */
  lemma NotificationForSpec(t: Task, today: int, seen: Task -> bool, otherDueSoon: Task -> bool, dateText: int -> string)
    ensures NotificationFor(t, today, seen, otherDueSoon, dateText).Some? <==> Eligible(t, today, seen, otherDueSoon)
    ensures seen(t) ==> NotificationFor(t, today, seen, otherDueSoon, dateText) == None
    ensures NotificationFor(t, today, seen, otherDueSoon, dateText).Some? ==>
      NotificationFor(t, today, seen, otherDueSoon, dateText).value.taskId == t.id
    ensures Eligible(t, today, seen, otherDueSoon) && IsHighPriorityDueSoon(t, today) ==>
      NotificationFor(t, today, seen, otherDueSoon, dateText).value.message == HighMessage(t, dateText)
    ensures Eligible(t, today, seen, otherDueSoon) && !IsHighPriorityDueSoon(t, today) ==>
      NotificationFor(t, today, seen, otherDueSoon, dateText).value.message == OtherMessage(t, dateText)
  {
  }

  /** The reminders for a sequence of tasks, in order. */
  function TaskNotifications(ts: seq<Task>, today: int, seen: Task -> bool, otherDueSoon: Task -> bool, dateText: int -> string): seq<Notification> {
    if ts == [] then []
    else
      var init := TaskNotifications(ts[..|ts| - 1], today, seen, otherDueSoon, dateText);
      match NotificationFor(ts[|ts| - 1], today, seen, otherDueSoon, dateText)
      case Some(n) => init + [n]
      case None => init
  }

  /** `get_notifications`: the teams in order, and each team's tasks in order. */
  function Notifications(teams: seq<nat>, tasks: seq<Task>, today: int, seen: Task -> bool, otherDueSoon: Task -> bool, dateText: int -> string): seq<Notification> {
    if teams == [] then []
    else
      Notifications(teams[..|teams| - 1], tasks, today, seen, otherDueSoon, dateText)
      + TaskNotifications(CreatedBy(teams[|teams| - 1], tasks), today, seen, otherDueSoon, dateText)
  }

  /** The number of eligible tasks in `ts`. */
  function CountEligible(ts: seq<Task>, today: int, seen: Task -> bool, otherDueSoon: Task -> bool): nat {
    if ts == [] then 0
    else CountEligible(ts[..|ts| - 1], today, seen, otherDueSoon) + (if Eligible(ts[|ts| - 1], today, seen, otherDueSoon) then 1 else 0)
  }

  /** The tasks of all the teams, team after team: the order the reminders are built in. */
  function TasksOfTeams(teams: seq<nat>, tasks: seq<Task>): seq<Task> {
    if teams == [] then [] else TasksOfTeams(teams[..|teams| - 1], tasks) + CreatedBy(teams[|teams| - 1], tasks)
  }

  /** There is one reminder per eligible task, and each is about an eligible task of `ts`. */
  lemma {:induction false} TaskNotificationsSpec(ts: seq<Task>, today: int, seen: Task -> bool, otherDueSoon: Task -> bool, dateText: int -> string)
    ensures |TaskNotifications(ts, today, seen, otherDueSoon, dateText)| == CountEligible(ts, today, seen, otherDueSoon)
    ensures forall n :: n in TaskNotifications(ts, today, seen, otherDueSoon, dateText) ==>
      exists t :: t in ts && t.id == n.taskId && Eligible(t, today, seen, otherDueSoon)
  {
    if ts != [] {
      var init := ts[..|ts| - 1];
      var last := ts[|ts| - 1];
      TaskNotificationsSpec(init, today, seen, otherDueSoon, dateText);
      NotificationForSpec(last, today, seen, otherDueSoon, dateText);
      assert forall t :: t in init ==> t in ts;
      assert last in ts;
    }
  }

  /** The reminders of two sequences of tasks, one after the other. */
  lemma {:induction false} TaskNotificationsAppend(a: seq<Task>, b: seq<Task>, today: int, seen: Task -> bool, otherDueSoon: Task -> bool, dateText: int -> string)
    ensures TaskNotifications(a + b, today, seen, otherDueSoon, dateText)
      == TaskNotifications(a, today, seen, otherDueSoon, dateText) + TaskNotifications(b, today, seen, otherDueSoon, dateText)
    decreases |b|
  {
    if b == [] {
      assert a + b == a;
    } else {
      var init := b[..|b| - 1];
      assert (a + b)[..|a + b| - 1] == a + init;
      assert (a + b)[|a + b| - 1] == b[|b| - 1];
      TaskNotificationsAppend(a, init, today, seen, otherDueSoon, dateText);
    }
  }

  /**
   * The reminders are those of the teams' tasks taken team after team, with
   * nothing reordered: as many as there are eligible tasks among them.
   */
  lemma {:induction false} NotificationsInTeamOrder(teams: seq<nat>, tasks: seq<Task>, today: int, seen: Task -> bool, otherDueSoon: Task -> bool, dateText: int -> string)
    ensures Notifications(teams, tasks, today, seen, otherDueSoon, dateText)
      == TaskNotifications(TasksOfTeams(teams, tasks), today, seen, otherDueSoon, dateText)
    ensures |Notifications(teams, tasks, today, seen, otherDueSoon, dateText)|
      == CountEligible(TasksOfTeams(teams, tasks), today, seen, otherDueSoon)
  {
    if teams != [] {
      var init := teams[..|teams| - 1];
      NotificationsInTeamOrder(init, tasks, today, seen, otherDueSoon, dateText);
      TaskNotificationsAppend(TasksOfTeams(init, tasks), CreatedBy(teams[|teams| - 1], tasks), today, seen, otherDueSoon, dateText);
    }
    TaskNotificationsSpec(TasksOfTeams(teams, tasks), today, seen, otherDueSoon, dateText);
  }

  /**
   * Every reminder is about an unseen, due-soon task that one of the user's
   * teams created.
   */
  lemma {:induction false} NotificationsAboutTeamTasks(teams: seq<nat>, tasks: seq<Task>, today: int, seen: Task -> bool, otherDueSoon: Task -> bool, dateText: int -> string)
    ensures forall n :: n in Notifications(teams, tasks, today, seen, otherDueSoon, dateText) ==>
      exists t :: t in tasks && t.id == n.taskId && Eligible(t, today, seen, otherDueSoon)
        && t.createdBy.Some? && t.createdBy.value in teams
  {
    if teams != [] {
      var init := teams[..|teams| - 1];
      var team := teams[|teams| - 1];
      NotificationsAboutTeamTasks(init, tasks, today, seen, otherDueSoon, dateText);
      TaskNotificationsSpec(CreatedBy(team, tasks), today, seen, otherDueSoon, dateText);
      assert forall x :: x in init ==> x in teams;
      assert team in teams;
    }
  }

  /** Tasks none of which is eligible yield no reminders. */
  lemma {:induction false} NoEligibleNoNotifications(ts: seq<Task>, today: int, seen: Task -> bool, otherDueSoon: Task -> bool, dateText: int -> string)
    requires forall t :: t in ts ==> !Eligible(t, today, seen, otherDueSoon)
    ensures TaskNotifications(ts, today, seen, otherDueSoon, dateText) == []
  {
    if ts != [] {
      var init := ts[..|ts| - 1];
      assert forall t :: t in init ==> t in ts;
      assert ts[|ts| - 1] in ts;
      NoEligibleNoNotifications(init, today, seen, otherDueSoon, dateText);
    }
  }

  /** When every task has been seen there are no reminders. */
  lemma {:induction false} AllSeenNoNotifications(teams: seq<nat>, tasks: seq<Task>, today: int, seen: Task -> bool, otherDueSoon: Task -> bool, dateText: int -> string)
    requires forall t :: t in tasks ==> seen(t)
    ensures Notifications(teams, tasks, today, seen, otherDueSoon, dateText) == []
  {
    if teams != [] {
      AllSeenNoNotifications(teams[..|teams| - 1], tasks, today, seen, otherDueSoon, dateText);
      NoEligibleNoNotifications(CreatedBy(teams[|teams| - 1], tasks), today, seen, otherDueSoon, dateText);
    }
  }

  /** `get_notifications` as the nested loop it is, over the user's teams and then each team's tasks. */
  method GetNotifications(teams: seq<nat>, tasks: seq<Task>, today: int, seen: Task -> bool, otherDueSoon: Task -> bool, dateText: int -> string)
    returns (notifications: seq<Notification>)
    ensures notifications == Notifications(teams, tasks, today, seen, otherDueSoon, dateText)
  {
    notifications := [];
    var i := 0;
    while i < |teams|
      invariant 0 <= i <= |teams|
      invariant notifications == Notifications(teams[..i], tasks, today, seen, otherDueSoon, dateText)
    {
      var teamTasks := CreatedBy(teams[i], tasks);
      ghost var before := notifications;
      var j := 0;
      while j < |teamTasks|
        invariant 0 <= j <= |teamTasks|
        invariant notifications == before + TaskNotifications(teamTasks[..j], today, seen, otherDueSoon, dateText)
      {
        var task := teamTasks[j];
        if !seen(task) && IsHighPriorityDueSoon(task, today) {
          notifications := notifications + [Notification(HighMessage(task, dateText), task.id)];
        } else if !seen(task) && otherDueSoon(task) {
          notifications := notifications + [Notification(OtherMessage(task, dateText), task.id)];
        }
        assert teamTasks[..j + 1][..j] == teamTasks[..j];
        j := j + 1;
      }
      assert teamTasks[..j] == teamTasks;
      assert teams[..i + 1][..i] == teams[..i];
      i := i + 1;
    }
    assert teams[..i] == teams;
  }

  /** The one piece of request state the middleware sets. */
  class Request {
    var notificationsFromDashboard: seq<Notification>

    constructor ()
      ensures notificationsFromDashboard == []
    {
      notificationsFromDashboard := [];
    }
  }

  /**
   * `__call__`: the requesting user's reminders are attached to the request
   * before it is passed on. `teams` are the user's teams.
   */
  method Attach(request: Request, teams: seq<nat>, tasks: seq<Task>, today: int, seen: Task -> bool, otherDueSoon: Task -> bool, dateText: int -> string)
    modifies request
    ensures request.notificationsFromDashboard == Notifications(teams, tasks, today, seen, otherDueSoon, dateText)
  {
    request.notificationsFromDashboard := GetNotifications(teams, tasks, today, seen, otherDueSoon, dateText);
  }
}
