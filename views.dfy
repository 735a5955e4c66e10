/**
 * The decisions the views make independently of HTTP: how a search query
 * is read, how the dashboard arranges and filters each team's tasks, how
 * removing a member updates the team, the member and every task assignment,
 * how the completion button sets the flag, who counts as admin or may mark
 * a task complete, and when a notification may be marked as seen.
 *
 * Relations are maps from primary keys to sets of primary keys. The
 * database's ordering of tasks by a field is a parameter `orderBy`.
 */
module Views {
  import opened Common
  import opened Text
  import opened Models

  /** How the users are searched for. */
  datatype UserQuery =
    | UsernamePrefix(prefix: string)
    | FirstAndLast(first: string, last: string)
    | EitherName(name: string)

  /** The lookups each kind of query performs, all case-insensitive. */
  predicate Matches(u: User, query: UserQuery) {
    match query
    case UsernamePrefix(prefix) => StartsWithIgnoreCase(u.username, prefix)
    case FirstAndLast(first, last) => EqualsIgnoreCase(u.firstName, first) && EqualsIgnoreCase(u.lastName, last)
    case EitherName(name) => EqualsIgnoreCase(u.firstName, name) || EqualsIgnoreCase(u.lastName, name)
  }

  /** `search_users`: two or more words search first and last name, anything else either name. */
  function ClassifyUserSearch(q: string): UserQuery {
    var words := Split(q);
    if |words| >= 2 then FirstAndLast(words[0], words[1]) else EitherName(q)
  }

  /**
   * The team page's search: a single token starting with "@" and more than
   * one character long searches usernames by prefix; two or more words not
   * starting with "@" search first and last name; anything else either name.
   */
  function ClassifyTeamSearch(q: string): UserQuery {
    var words := Split(q);
    if StartsWith(q, "@") && |words| == 1 && |Strip(q)| > 1 then UsernamePrefix(words[0])
    else if |words| >= 2 && !StartsWith(q, "@") then FirstAndLast(words[0], words[1])
    else EitherName(q)
  }

  /** The users a query finds, in stored order. */
  function FindUsers(users: seq<User>, query: UserQuery): (r: seq<User>)
    ensures forall u :: u in r <==> u in users && Matches(u, query)
  {
    if users == [] then []
    else
      var init := FindUsers(users[..|users| - 1], query);
      var last := users[|users| - 1];
      assert users == users[..|users| - 1] + [last];
      if Matches(last, query) then init + [last] else init
  }

  /**
   * A query of two or more words is read as a first and a last name, the
   * first two words; any other query is compared whole with either name.
   */
  lemma ClassifyUserSearchSpec(q: string)
    ensures ClassifyUserSearch(q).FirstAndLast? <==> |Split(q)| >= 2
    ensures ClassifyUserSearch(q).FirstAndLast? ==>
      ClassifyUserSearch(q) == FirstAndLast(Split(q)[0], Split(q)[1])
    ensures ClassifyUserSearch(q).EitherName? ==> ClassifyUserSearch(q).name == q
  {
  }

  /** A user whose first and last names are one word each is found by searching their full name. */
  lemma FullNameFindsUser(u: User)
    requires IsWord(u.firstName) && IsWord(u.lastName)
    ensures Matches(u, ClassifyUserSearch(FullName(u)))
  {
    FullNameWords(u);
  }

  /**
   * On the team page the username prefix search is chosen exactly for a
   * single token that starts with "@" and is longer than "@", and the
   * prefix searched for is the query without its surrounding whitespace.
   */
  lemma ClassifyTeamSearchSpec(q: string)
    ensures ClassifyTeamSearch(q).UsernamePrefix? <==> StartsWith(q, "@") && |Split(q)| == 1 && |Strip(q)| > 1
    ensures ClassifyTeamSearch(q).UsernamePrefix? ==> ClassifyTeamSearch(q).prefix == Strip(q)
    ensures ClassifyTeamSearch(q).FirstAndLast? <==> |Split(q)| >= 2 && !StartsWith(q, "@")
  {
    if ClassifyTeamSearch(q).UsernamePrefix? {
      SingleWordIsStripped(q);
    }
  }

  /** A valid username, searched on the team page, finds its user by prefix. */
  lemma UsernameFindsUser(u: User)
    requires ValidUsername(u.username) && '\n' !in u.username
    ensures ClassifyTeamSearch(u.username) == UsernamePrefix(u.username)
    ensures Matches(u, ClassifyTeamSearch(u.username))
  {
    var name := u.username;
    assert BeforeFinalNewline(name) == name by {
      assert name[|name| - 1] in name;
    }
    assert IsWord(name) by {
      forall i | 0 <= i < |name| ensures !IsSpace(name[i]) {
        if i > 0 { assert IsWordChar(name[i]); }
      }
    }
    SplitWord(name);
    SingleWordIsStripped(name);
    assert StartsWith(name, "@") by {
      assert name[..1] == [name[0]];
    }
    assert StartsWith(Lower(name), Lower(name)) by {
      assert Lower(name)[..|Lower(name)|] == Lower(name);
    }
  }

  /** A full name that does not start with "@" is searched on the team page as first and last name. */
  lemma TeamFullNameFindsUser(u: User)
    requires IsWord(u.firstName) && IsWord(u.lastName) && u.firstName[0] != '@'
    ensures Matches(u, ClassifyTeamSearch(FullName(u)))
  {
    FullNameWords(u);
    var q := FullName(u);
    assert q[0] == u.firstName[0];
    assert !StartsWith(q, "@");
  }

  /** How the dashboard arranges a team's tasks. */
  datatype Arrangement =
    | Search(query: string)
    | OrderBy(field: string)
    | ByDueDate(ascending: bool)
    | AsStored

  /**
   * The precedence of the dashboard's parameters: a search query, then an
   * explicit order, then an ascending or descending due-date sort.
   */
  function ChooseArrangement(searchQuery: string, orderType: string, sortType: string): Arrangement {
    if searchQuery != "" then Search(searchQuery)
    else if orderType != "default" then OrderBy(orderType)
    else if sortType == "ascending" then ByDueDate(true)
    else if sortType == "descending" then ByDueDate(false)
    else AsStored
  }

  /**
   * A search query overrides everything; without one an explicit order
   * overrides the sort; and any sort value but the two directions leaves
   * the stored order.
   */
  lemma ChooseArrangementSpec(searchQuery: string, orderType: string, sortType: string)
    ensures searchQuery != "" ==> ChooseArrangement(searchQuery, orderType, sortType) == Search(searchQuery)
    ensures ChooseArrangement(searchQuery, orderType, sortType).OrderBy? <==> searchQuery == "" && orderType != "default"
    ensures ChooseArrangement(searchQuery, orderType, sortType).ByDueDate? <==>
      searchQuery == "" && orderType == "default" && sortType in {"ascending", "descending"}
    ensures ChooseArrangement(searchQuery, orderType, sortType) == AsStored <==>
      searchQuery == "" && orderType == "default" && sortType !in {"ascending", "descending"}
  {
  }

  /** The search's lookup: the query occurs in the title or the description, ignoring case. */
  predicate SearchHit(t: Task, query: string) {
    ContainsIgnoreCase(t.title, query) || ContainsIgnoreCase(t.description, query)
  }

  /** The search as a test on one task. */
  function SearchTest(query: string): Task -> bool {
    (t: Task) => SearchHit(t, query)
  }

  /** A team's tasks after the arrangement. */
  function Arrange(ts: seq<Task>, a: Arrangement, orderBy: (seq<Task>, string) -> seq<Task>): seq<Task> {
    match a
    case Search(query) => Where(ts, SearchTest(query))
    case OrderBy(field) => orderBy(ts, field)
    case ByDueDate(ascending) => orderBy(ts, if ascending then "due_date" else "-due_date")
    case AsStored => ts
  }

  /** The dashboard's filter conditions. */
  datatype TaskFilter = PriorityIs(priority: Priority) | CompletedIs(completed: bool) | NoFilter

  /**
   * The filter parameter: "priorityLow", "priorityMedium" and "priorityHigh"
   * lose their "priority" prefix and are lower-cased into a priority value;
   * "CompletedTrue" and "CompletedFalse" select on completion.
   */
  function FilterFor(filterType: Option<string>): TaskFilter {
    match filterType
    case None => NoFilter
    case Some(f) =>
      if f in {"priorityLow", "priorityMedium", "priorityHigh"} then
        match ParsePriority(Lower(f[8..]))
        case Some(p) => PriorityIs(p)
        case None => NoFilter
      else if f in {"CompletedTrue", "CompletedFalse"} then CompletedIs(f == "CompletedTrue")
      else NoFilter
  }

  /** The parameter value that selects a filter. */
  function FilterName(f: TaskFilter): Option<string> {
    match f
    case PriorityIs(p) => Some("priority" + PriorityLabel(p))
    case CompletedIs(c) => Some(if c then "CompletedTrue" else "CompletedFalse")
    case NoFilter => None
  }

  /**
   * Every filter is selected by its parameter value, and every value that
   * selects a filter is that filter's value; all other values select none.
   */
  lemma FilterRoundTrip(f: TaskFilter, s: string)
    ensures FilterFor(FilterName(f)) == f
    ensures FilterFor(Some(s)) != NoFilter ==> FilterName(FilterFor(Some(s))) == Some(s)
    ensures FilterFor(Some(s)) == NoFilter <==>
      s !in {"priorityLow", "priorityMedium", "priorityHigh", "CompletedTrue", "CompletedFalse"}
  {
    LowerLabels();
    assert "priorityLow"[8..] == "Low" && "priorityMedium"[8..] == "Medium" && "priorityHigh"[8..] == "High";
    assert "priority" + "Low" == "priorityLow" && "priority" + "Medium" == "priorityMedium" && "priority" + "High" == "priorityHigh";
  }

  lemma LowerLabels()
    ensures Lower("Low") == "low" && Lower("Medium") == "medium" && Lower("High") == "high"
  {
    assert Lower("Low") == "low" by { assert LowerChar('L') == 'l'; }
    assert Lower("Medium") == "medium" by { assert LowerChar('M') == 'm'; }
    assert Lower("High") == "high" by { assert LowerChar('H') == 'h'; }
  }

  predicate Passes(t: Task, f: TaskFilter) {
    match f
    case PriorityIs(p) => t.priority == p
    case CompletedIs(c) => t.completed == c
    case NoFilter => true
  }

  /** The filter conditions as a test on one task. */
  function FilterTest(f: TaskFilter): Task -> bool {
    (t: Task) => Passes(t, f)
  }

  /** `tasks.filter(**filter_conditions)`, skipped when there are no conditions. */
  function ApplyFilter(ts: seq<Task>, f: TaskFilter): seq<Task> {
    if f == NoFilter then ts else Where(ts, FilterTest(f))
  }

  /** What the dashboard shows for one team. */
  function TeamView(ts: seq<Task>, a: Arrangement, f: TaskFilter, orderBy: (seq<Task>, string) -> seq<Task>): seq<Task> {
    ApplyFilter(Arrange(ts, a, orderBy), f)
  }

  /**
   * With a search and a filter, a team's listing holds exactly its tasks
   * that mention the query and pass the filter; with neither, and no
   * ordering, it is the team's tasks as stored.
   */
  lemma TeamViewSpec(ts: seq<Task>, query: string, f: TaskFilter, orderBy: (seq<Task>, string) -> seq<Task>)
    ensures query != "" ==> forall t :: t in TeamView(ts, Search(query), f, orderBy) <==> t in ts && SearchHit(t, query) && Passes(t, f)
    ensures TeamView(ts, AsStored, NoFilter, orderBy) == ts
  {
  }

  /** One pass of the loop in `dashboard`: a team's tasks, arranged and then filtered. */
  method ArrangeTeamTasks(forTeam: seq<Task>, searchQuery: string, orderType: string, sortType: string,
                          filterType: Option<string>, orderBy: (seq<Task>, string) -> seq<Task>)
    returns (r: seq<Task>)
    ensures r == TeamView(forTeam, ChooseArrangement(searchQuery, orderType, sortType), FilterFor(filterType), orderBy)
  {
    r := forTeam;
    if searchQuery != "" {
      r := Where(r, SearchTest(searchQuery));
    } else if orderType != "default" {
      r := orderBy(r, orderType);
    } else if sortType == "ascending" || sortType == "descending" {
      var prefix := if sortType == "ascending" then "" else "-";
      assert prefix + "due_date" == if sortType == "ascending" then "due_date" else "-due_date";
      r := orderBy(r, prefix + "due_date");
    }
    var conditions := FilterFor(filterType);
    if conditions != NoFilter {
      r := Where(r, FilterTest(conditions));
    }
  }

  /**
   * The loop of `dashboard` over the user's teams: each team is paired with
   * its tasks as arranged and filtered, in team order.
   */
  method DashboardTeamTasks(teams: seq<nat>, tasks: seq<Task>, searchQuery: string, orderType: string, sortType: string,
                            filterType: Option<string>, orderBy: (seq<Task>, string) -> seq<Task>)
    returns (teamTasks: seq<(nat, seq<Task>)>)
    ensures |teamTasks| == |teams|
    ensures forall i :: 0 <= i < |teams| ==>
      teamTasks[i] == (teams[i], TeamView(CreatedBy(teams[i], tasks), ChooseArrangement(searchQuery, orderType, sortType), FilterFor(filterType), orderBy))
  {
    teamTasks := [];
    var i := 0;
    while i < |teams|
      invariant 0 <= i <= |teams|
      invariant |teamTasks| == i
      invariant forall k :: 0 <= k < i ==>
        teamTasks[k] == (teams[k], TeamView(CreatedBy(teams[k], tasks), ChooseArrangement(searchQuery, orderType, sortType), FilterFor(filterType), orderBy))
    {
      var team := teams[i];
      var forTeam := ArrangeTeamTasks(CreatedBy(team, tasks), searchQuery, orderType, sortType, filterType, orderBy);
      teamTasks := teamTasks + [(team, forTeam)];
      i := i + 1;
    }
  }

  /**
   * What the completion button posts sets the flag: "Completed" clears it,
   * anything else sets it. The view changes only the task object it has in
   * memory; that branch does not save it.
   */
  function CompletionAfterPost(task: Task, postedValue: string): (r: Task)
    ensures r == task.(completed := postedValue != "Completed")
  {
    if postedValue == "Completed" then task.(completed := false) else task.(completed := true)
  }

  /** The button flips a task's flag when it shows the task's current state, and changes nothing else. */
  lemma CompletionToggles(task: Task)
    ensures CompletionAfterPost(task, if task.completed then "Completed" else "Mark as done").completed == !task.completed
    ensures forall v :: CompletionAfterPost(task, v).(completed := task.completed) == task
  {
  }

  /** `is_admin`: the user is the team's admin. */
  predicate IsAdmin(team: Team, user: nat) {
    team.admin == Some(user)
  }

  /** `can_mark_as_complete`: the user is assigned to the task or is the team's admin. */
  predicate CanMarkAsComplete(team: Team, assignees: set<nat>, user: nat) {
    user in assignees || IsAdmin(team, user)
  }

  /**
   * The admin may always mark a task complete, an assignee may too, and a
   * user who is neither may not; a team without an admin has no admin.
   */
  lemma PermissionSpec(team: Team, assignees: set<nat>, user: nat)
    ensures IsAdmin(team, user) ==> CanMarkAsComplete(team, assignees, user)
    ensures CanMarkAsComplete(team, assignees, user) && !IsAdmin(team, user) ==> user in assignees
    ensures team.admin.None? ==> !IsAdmin(team, user) && (CanMarkAsComplete(team, assignees, user) <==> user in assignees)
  {
  }

  /** Every task's assignees without `member`. */
  function WithoutAssignee(assignees: map<nat, set<nat>>, member: nat): (r: map<nat, set<nat>>)
    ensures r.Keys == assignees.Keys
  {
    map t | t in assignees :: assignees[t] - {member}
  }

  /**
   * Afterwards the member is assigned to no task, every other assignment is
   * as it was, and a task the member was not assigned to is untouched.
   */
  lemma WithoutAssigneeSpec(assignees: map<nat, set<nat>>, member: nat)
    ensures forall t :: t in WithoutAssignee(assignees, member) ==> member !in WithoutAssignee(assignees, member)[t]
    ensures forall t, u :: t in assignees && u != member ==> (u in WithoutAssignee(assignees, member)[t] <==> u in assignees[t])
    ensures forall t :: t in assignees && member !in assignees[t] ==> WithoutAssignee(assignees, member)[t] == assignees[t]
  {
  }

  /** Whether each team's members and each user's teams describe the same relation. */
  ghost predicate Mirrored(members: map<nat, set<nat>>, userTeams: map<nat, set<nat>>) {
    forall team, user :: (team in members && user in members[team]) <==> (user in userTeams && team in userTeams[user])
  }

  /** `mark_as_seen_view`'s outcome, or `None` when there is no such notification. */
  function SeenBy(notifications: map<nat, nat>, requester: Option<nat>, id: nat): (r: Option<map<nat, nat>>)
    ensures r.None? <==> id !in notifications
  {
    if id !in notifications then None
    else if requester == Some(notifications[id]) then Some(notifications - {id})
    else Some(notifications)
  }

  /**
   * A notification is deleted only by the user it was for; nothing else is
   * ever deleted, and anyone else's request changes nothing.
   */
  lemma SeenBySpec(notifications: map<nat, nat>, requester: Option<nat>, id: nat)
    requires id in notifications
    ensures SeenBy(notifications, requester, id).Some?
    ensures var r := SeenBy(notifications, requester, id).value;
      (id !in r <==> requester == Some(notifications[id]))
      && (forall k :: k in notifications && k != id ==> k in r && r[k] == notifications[k])
      && r.Keys <= notifications.Keys
  {
  }

  /** The outcome of a view that looks a record up with `get_object_or_404`. */
  datatype Outcome = Done | NotFound

  /** The relations the views change. */
  class Workspace {
    /** Team id to its admin's user id, if it has one. */
    var admins: map<nat, Option<nat>>
    /** Team id to its members' user ids (`team.members`). */
    var members: map<nat, set<nat>>
    /** User id to the ids of their teams (`user.teams`). */
    var userTeams: map<nat, set<nat>>
    /** Task id to its assignees' user ids (`task.assigned_to`). */
    var assignees: map<nat, set<nat>>
    /** Username to user id. */
    var accounts: map<string, nat>
    /** Notification id to the id of the user notified. */
    var notifications: map<nat, nat>

    constructor ()
      ensures admins == map[] && members == map[] && userTeams == map[]
      ensures assignees == map[] && accounts == map[] && notifications == map[]
    {
      admins, members, userTeams := map[], map[], map[];
      assignees, accounts, notifications := map[], map[], map[];
    }

    /**
     * `remove_member`: only the team's admin may remove, and only a named
     * member. The member leaves the team and the team leaves the member's
     * teams when they were in it; either way they are unassigned from every
     * task, whichever team it belongs to.
     */
    method RemoveMember(requester: nat, teamId: nat, memberUsername: string) returns (outcome: Outcome)
      modifies this
      ensures teamId !in old(admins) ==> outcome == NotFound
      ensures outcome == NotFound ==>
        admins == old(admins) && members == old(members) && userTeams == old(userTeams) && assignees == old(assignees)
      ensures teamId in old(admins) && (old(admins[teamId]) != Some(requester) || memberUsername == []) ==>
        outcome == Done && members == old(members) && userTeams == old(userTeams) && assignees == old(assignees)
      ensures teamId in old(admins) && old(admins[teamId]) == Some(requester) && memberUsername != [] ==>
        (outcome == NotFound <==> memberUsername !in old(accounts))
      ensures teamId in old(admins) && old(admins[teamId]) == Some(requester) && memberUsername != [] && memberUsername in old(accounts) ==>
        var member := old(accounts[memberUsername]);
        var inTeam := teamId in old(members) && member in old(members[teamId]);
        outcome == Done
        && members == (if inTeam then old(members)[teamId := old(members[teamId]) - {member}] else old(members))
        && userTeams == (if inTeam && member in old(userTeams) then old(userTeams)[member := old(userTeams[member]) - {teamId}] else old(userTeams))
        && assignees == WithoutAssignee(old(assignees), member)
      ensures admins == old(admins) && accounts == old(accounts) && notifications == old(notifications)
      ensures Mirrored(old(members), old(userTeams)) ==> Mirrored(members, userTeams)
    {
      if teamId !in admins {
        return NotFound;
      }
      outcome := Done;
      if admins[teamId] == Some(requester) {
        if memberUsername != [] {
          if memberUsername !in accounts {
            return NotFound;
          }
          var member := accounts[memberUsername];
          if teamId in members && member in members[teamId] {
            members := members[teamId := members[teamId] - {member}];
            if member in userTeams {
              userTeams := userTeams[member := userTeams[member] - {teamId}];
            }
          }
          UnassignEverywhere(member);
        }
      }
    }

    /** The loop over the member's tasks, removing them from each one's assignees. */
    method UnassignEverywhere(member: nat)
      modifies this
      ensures assignees == WithoutAssignee(old(assignees), member)
      ensures admins == old(admins) && members == old(members) && userTeams == old(userTeams)
      ensures accounts == old(accounts) && notifications == old(notifications)
    {
      var pending := set t | t in assignees && member in assignees[t];
      ghost var original := assignees;
      while pending != {}
        invariant pending <= original.Keys
        invariant assignees.Keys == original.Keys
        invariant forall t :: t in assignees ==>
          assignees[t] == (if t in pending then original[t] else original[t] - {member})
        invariant admins == old(admins) && members == old(members) && userTeams == old(userTeams)
        invariant accounts == old(accounts) && notifications == old(notifications)
        decreases pending
      {
        var t :| t in pending;
        assignees := assignees[t := assignees[t] - {member}];
        pending := pending - {t};
      }
      assert forall t :: t in assignees ==> assignees[t] == original[t] - {member};
      assert assignees == WithoutAssignee(original, member);
    }

    /** `mark_as_seen_view`. */
    method MarkAsSeen(requester: Option<nat>, id: nat) returns (outcome: Outcome)
      modifies this
      ensures outcome == NotFound <==> id !in old(notifications)
      ensures outcome == NotFound ==> notifications == old(notifications)
      ensures outcome == Done ==> notifications == SeenBy(old(notifications), requester, id).value
      ensures admins == old(admins) && members == old(members) && userTeams == old(userTeams)
      ensures assignees == old(assignees) && accounts == old(accounts)
    {
      if id !in notifications {
        return NotFound;
      }
      if requester == Some(notifications[id]) {
        notifications := notifications - {id};
      }
      outcome := Done;
    }
  }
}
