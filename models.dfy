/**
 * The application's three records — users, tasks and teams — with the
 * field constraints their model declarations impose (`full_clean`), the
 * choices and defaults of the task fields, a user's full name, and the
 * "high priority, due soon" rule used by the notification middleware.
 *
 * Dates are whole day numbers; `today` is passed in. Many-to-many
 * relations (a team's members, a user's teams, a task's assignees) are not
 * fields of these records: the modules that change them hold them as maps.
 */
module Models {
  import opened Common
  import opened Text

  const UsernameMaxLength := 30
  const NameMaxLength := 50
  const TitleMaxLength := 30
  const DescriptionMaxLength := 300
  const PriorityMaxLength := 10
  const TeamNameMaxLength := 50

  /** The three entries of `PRIORITY_CHOICES`. */
  datatype Priority = Low | Medium | High

  /** The value stored in the `priority` column. */
  function PriorityValue(p: Priority): string {
    match p
    case Low => "low"
    case Medium => "medium"
    case High => "high"
  }

  /** The human-readable half of each choice. */
  function PriorityLabel(p: Priority): string {
    match p
    case Low => "Low"
    case Medium => "Medium"
    case High => "High"
  }

  /** Choice validation: a stored string is one of the three values, or it is rejected. */
  function ParsePriority(s: string): (r: Option<Priority>)
    ensures r.Some? ==> |s| <= PriorityMaxLength
  {
    if s == "low" then Some(Low)
    else if s == "medium" then Some(Medium)
    else if s == "high" then Some(High)
    else None
  }

  /** The stored values and the choices are in one-to-one correspondence. */
  lemma PriorityChoices(p: Priority, s: string)
    ensures ParsePriority(PriorityValue(p)) == Some(p)
    ensures ParsePriority(s) == Some(p) ==> s == PriorityValue(p)
    ensures |PriorityValue(p)| <= PriorityMaxLength
  {
  }

  /** Capitalising the stored value gives the choice's label. */
  lemma CapitalizedPriority(p: Priority)
    ensures Capitalize(PriorityValue(p)) == PriorityLabel(p)
  {
    match p
    case Low => assert Lower("ow") == "ow";
    case Medium => assert Lower("edium") == "edium";
    case High => assert Lower("igh") == "igh";
  }

  const DefaultPriority := Medium

  datatype User = User(id: nat, username: string, firstName: string, lastName: string, password: string)

  datatype Task = Task(
    id: nat,
    title: string,
    description: string,
    dueDate: int,
    createdBy: Option<nat>,
    priority: Priority,
    completed: bool)

  datatype Team = Team(id: nat, name: string, admin: Option<nat>)

  /** A task built from a title, description and due date; every other field takes its default. */
  function NewTask(id: nat, title: string, description: string, dueDate: int): (t: Task)
    ensures t.priority == Medium && !t.completed && t.createdBy == None
    ensures t.id == id && t.title == title && t.description == description && t.dueDate == dueDate
  {
    Task(id, title, description, dueDate, None, DefaultPriority, false)
  }

  /** `\w` in the username pattern, on ASCII characters. */
  predicate IsWordChar(c: char) {
    ('a' <= c <= 'z') || ('A' <= c <= 'Z') || ('0' <= c <= '9') || c == '_'
  }

  /** `@` followed by at least three word characters, and nothing else. */
  predicate AtWord(core: string) {
    |core| >= 4 && core[0] == '@' && forall i :: 1 <= i < |core| ==> IsWordChar(core[i])
  }

  /** The text `$` lets the pattern see: all of `u` but one final newline. */
  function BeforeFinalNewline(u: string): string {
    if u != [] && u[|u| - 1] == '\n' then u[..|u| - 1] else u
  }

  /**
   * `^@\w{3,}$` as Python's `re.search` reads it: `$` also matches just
   * before one final newline, so a single trailing newline is tolerated.
   */
  predicate MatchesUsernamePattern(u: string) {
    AtWord(BeforeFinalNewline(u))
  }

  predicate ValidUsername(u: string) {
    |u| <= UsernameMaxLength && MatchesUsernamePattern(u)
  }

  /**
   * A username without a newline is valid exactly when it is "@" followed
   * by a word of three to twenty-nine word characters.
   */
  lemma UsernameShape(u: string)
    requires '\n' !in u
    ensures ValidUsername(u) <==>
      exists w :: u == "@" + w && 3 <= |w| <= UsernameMaxLength - 1 && forall i :: 0 <= i < |w| ==> IsWordChar(w[i])
  {
    if u != [] {
      assert u[|u| - 1] in u;
    }
    assert BeforeFinalNewline(u) == u;
    if ValidUsername(u) {
      var w := u[1..];
      assert u == "@" + w;
      forall i | 0 <= i < |w| ensures IsWordChar(w[i]) {
        assert w[i] == u[i + 1];
      }
    }
    if exists w :: u == "@" + w && 3 <= |w| <= UsernameMaxLength - 1 && forall i :: 0 <= i < |w| ==> IsWordChar(w[i]) {
      var w :| u == "@" + w && 3 <= |w| <= UsernameMaxLength - 1 && forall i :: 0 <= i < |w| ==> IsWordChar(w[i]);
      forall i | 1 <= i < |u| ensures IsWordChar(u[i]) {
        assert u[i] == w[i - 1];
      }
    }
  }

  /** Examples at the edges of the pattern, the trailing newline included. */
  lemma UsernameExamples()
    ensures ValidUsername("@abc") && !ValidUsername("@ab") && !ValidUsername("abcd")
    ensures !ValidUsername("@ab c") && ValidUsername("@abc\n") && !ValidUsername("@abc\n\n")
  {
    var a := "@abc";
    assert BeforeFinalNewline(a) == a;
    assert IsWordChar(a[1]) && IsWordChar(a[2]) && IsWordChar(a[3]);
    assert BeforeFinalNewline("@abc\n") == a;
    var b := "@ab c";
    assert BeforeFinalNewline(b) == b;
    assert !IsWordChar(b[3]);
    var c := "@abc\n\n";
    assert BeforeFinalNewline(c) == "@abc\n";
    assert !IsWordChar("@abc\n"[4]);
  }

  predicate ValidName(n: string) {
    n != [] && |n| <= NameMaxLength
  }

  predicate ValidUser(u: User) {
    ValidUsername(u.username) && ValidName(u.firstName) && ValidName(u.lastName)
  }

  /** The `unique=True` constraint on usernames, over the stored users. */
  predicate UniqueUsernames(users: map<nat, User>) {
    forall a, b :: a in users && b in users && users[a].username == users[b].username ==> a == b
  }

  predicate ValidTitle(t: string) {
    t != [] && |t| <= TitleMaxLength
  }

  predicate ValidDescription(d: string) {
    |d| <= DescriptionMaxLength
  }

  /** `full_clean` on a task: the priority and completion fields can only hold valid choices here. */
  predicate ValidTask(t: Task) {
    ValidTitle(t.title) && ValidDescription(t.description)
  }

  /** The title accepts thirty characters and rejects thirty-one; a description may be blank. */
  lemma TaskFieldBoundaries()
    ensures ValidTitle(seq(30, _ => 'x')) && !ValidTitle(seq(31, _ => 'x')) && !ValidTitle("")
    ensures ValidDescription("") && ValidDescription(seq(300, _ => 'x')) && !ValidDescription(seq(301, _ => 'x'))
  {
  }

  predicate ValidTeamName(n: string) {
    n != [] && |n| <= TeamNameMaxLength
  }

  /** `full_clean` on a team: a name and an admin are both required. */
  predicate ValidTeam(t: Team) {
    ValidTeamName(t.name) && t.admin.Some?
  }

  /** The team name accepts fifty characters and rejects fifty-one and the blank name. */
  lemma TeamNameBoundaries()
    ensures ValidTeamName(seq(50, _ => 'x')) && !ValidTeamName(seq(51, _ => 'x')) && !ValidTeamName("")
  {
  }

  /** `User.full_name`. */
  function FullName(u: User): string {
    u.firstName + " " + u.lastName
  }

  /** A full name made of two one-word names splits back into those two names. */
  lemma FullNameWords(u: User)
    requires IsWord(u.firstName) && IsWord(u.lastName)
    ensures Split(FullName(u)) == [u.firstName, u.lastName]
    ensures Join([u.firstName, u.lastName]) == FullName(u)
  {
    SplitJoin([u.firstName, u.lastName]);
  }

  /** A query's `.filter(...)`: the tasks satisfying `p`, in stored order. */
  function Where(tasks: seq<Task>, p: Task -> bool): (r: seq<Task>)
    ensures |r| <= |tasks|
    ensures forall t :: t in r <==> t in tasks && p(t)
  {
    if tasks == [] then []
    else
      var init := Where(tasks[..|tasks| - 1], p);
      var last := tasks[|tasks| - 1];
      assert tasks == tasks[..|tasks| - 1] + [last];
      if p(last) then init + [last] else init
  }

  /** `Task.objects.filter(created_by=team)`. */
  function CreatedBy(team: nat, tasks: seq<Task>): seq<Task> {
    Where(tasks, (t: Task) => t.createdBy == Some(team))
  }

  /** `Task.is_high_priority_due_soon`, with `today` as a parameter. */
  predicate IsHighPriorityDueSoon(t: Task, today: int) {
    t.priority == High && t.dueDate >= today && t.dueDate <= today + 1
  }

  /**
   * Exactly two due dates qualify, today and tomorrow, and only for a
   * high-priority task: an overdue task, one due in two days or more, and
   * any low or medium task never do.
   */
  lemma HighPriorityDueSoonWindow(t: Task, today: int)
    ensures IsHighPriorityDueSoon(t, today) <==> t.priority == High && t.dueDate in {today, today + 1}
    ensures t.priority != High ==> !IsHighPriorityDueSoon(t, today)
    ensures t.dueDate < today || t.dueDate >= today + 2 ==> !IsHighPriorityDueSoon(t, today)
  {
  }
}
