/**
 * The forms' own rules: how a required text field is cleaned, the
 * new-password strength pattern and confirmation check, the current-password
 * check, the invalid branch of the log-in form, and what each `save` copies
 * into the record it writes.
 *
 * A form's errors are the set of fields that carry at least one error; the
 * form is valid when that set is empty. Authentication is a parameter: it
 * answers whether a username and a password match a stored account.
 */
module Forms {
  import opened Common
  import opened Text
  import opened Models

  /** The form fields that can carry an error. */
  datatype FormField = Password | NewPassword | PasswordConfirmation

  /**
   * A required `forms.CharField`: the stripped input, or `None` when nothing
   * is left or when it holds a NUL character, which every `CharField`
   * rejects by its built-in validator.
   */
  function CleanRequired(raw: string): (r: Option<string>)
    ensures r.Some? ==> r.value == Strip(raw) && r.value != [] && '\0' !in r.value
    ensures r.None? <==> Strip(raw) == [] || '\0' in Strip(raw)
  {
    var v := Strip(raw);
    if v == [] || '\0' in v then None else Some(v)
  }

  predicate HasUpper(s: string) { exists i :: 0 <= i < |s| && 'A' <= s[i] <= 'Z' }
  predicate HasLower(s: string) { exists i :: 0 <= i < |s| && 'a' <= s[i] <= 'z' }
  predicate HasDigit(s: string) { exists i :: 0 <= i < |s| && '0' <= s[i] <= '9' }

  /** The text before the first newline: all that `.` can cross. */
  function FirstLine(s: string): (r: string)
    ensures |r| <= |s| && r == s[..|r|]
    ensures '\n' !in r
    ensures |r| < |s| ==> s[|r|] == '\n'
  {
    if s == [] || s[0] == '\n' then [] else [s[0]] + FirstLine(s[1..])
  }

  /**
   * `^(?=.*[A-Z])(?=.*[a-z])(?=.*[0-9]).*$` under `re.search`: each class
   * occurs on the first line, and `.*$` reaches the end from there, which
   * `$` allows only at the very end or just before one final newline.
   */
  predicate MatchesPasswordPattern(s: string) {
    var line := FirstLine(s);
    HasUpper(line) && HasLower(line) && HasDigit(line) && line == BeforeFinalNewline(s)
  }

  /**
   * On text without a newline — a cleaned field never ends in one — the
   * pattern asks for exactly an upper-case letter, a lower-case letter and a
   * digit, anywhere.
   */
  lemma PasswordPatternSpec(s: string)
    requires '\n' !in s
    ensures MatchesPasswordPattern(s) <==> HasUpper(s) && HasLower(s) && HasDigit(s)
  {
    FirstLineWhole(s);
    if s != [] {
      assert s[|s| - 1] in s;
    }
  }

  lemma {:induction false} FirstLineWhole(s: string)
    requires '\n' !in s
    ensures FirstLine(s) == s
  {
    if s != [] {
      assert s[0] in s;
      assert forall c :: c in s[1..] ==> c in s;
      FirstLineWhole(s[1..]);
    }
  }

  /** A cleaned new password with a newline inside is rejected, whatever else it holds. */
  lemma PasswordPatternRejectsNewline(s: string)
    requires s != [] && s[|s| - 1] != '\n'
    requires '\n' in s
    ensures !MatchesPasswordPattern(s)
  {
    assert BeforeFinalNewline(s) == s;
  }

  /** A password with all three kinds of character is accepted. */
  lemma PasswordAccepted()
    ensures MatchesPasswordPattern("Password123")
  {
    var a := "Password123";
    assert forall i :: 0 <= i < |a| ==> a[i] != '\n';
    PasswordPatternSpec(a);
    assert 'A' <= a[0] <= 'Z' && 'a' <= a[1] <= 'z' && '0' <= a[8] <= '9';
  }

  /** Without an upper-case letter the pattern fails. */
  lemma PasswordNeedsUpper()
    ensures !MatchesPasswordPattern("password123")
  {
    var b := "password123";
    assert forall i :: 0 <= i < |b| ==> b[i] != '\n' && !('A' <= b[i] <= 'Z');
    PasswordPatternSpec(b);
  }

  /** Without a lower-case letter the pattern fails. */
  lemma PasswordNeedsLower()
    ensures !MatchesPasswordPattern("PASSWORD123")
  {
    var c := "PASSWORD123";
    assert forall i :: 0 <= i < |c| ==> c[i] != '\n' && !('a' <= c[i] <= 'z');
    PasswordPatternSpec(c);
  }

  /** Without a digit the pattern fails. */
  lemma PasswordNeedsDigit()
    ensures !MatchesPasswordPattern("Password")
  {
    var d := "Password";
    assert forall i :: 0 <= i < |d| ==> d[i] != '\n' && !('0' <= d[i] <= '9');
    PasswordPatternSpec(d);
  }

  /** The `new_password` field: required, stripped, then matched against the pattern. */
  function CleanNewPassword(raw: string): Option<string> {
    match CleanRequired(raw)
    case Some(v) => if MatchesPasswordPattern(v) then Some(v) else None
    case None => None
  }

  /**
   * `NewPasswordMixin`: the field errors of both fields, and the
   * confirmation error `clean` adds when the cleaned values differ — which
   * includes the case of a new password that failed its own checks while
   * the confirmation did not.
   */
  function NewPasswordErrors(newRaw: string, confirmationRaw: string): set<FormField> {
    var np := CleanNewPassword(newRaw);
    var pc := CleanRequired(confirmationRaw);
    (if np.None? then {NewPassword} else {})
    + (if pc.None? || np != pc then {PasswordConfirmation} else {})
  }

  /**
   * The new-password fields are error-free exactly when the new password is
   * non-blank, free of NUL characters, matches the pattern and equals the
   * confirmation, both stripped; differing values always mark the
   * confirmation.
   */
  lemma NewPasswordErrorsSpec(newRaw: string, confirmationRaw: string)
    ensures NewPasswordErrors(newRaw, confirmationRaw) == {} <==>
      Strip(newRaw) != [] && '\0' !in Strip(newRaw) && MatchesPasswordPattern(Strip(newRaw))
      && Strip(newRaw) == Strip(confirmationRaw)
    ensures Strip(newRaw) != Strip(confirmationRaw) ==> PasswordConfirmation in NewPasswordErrors(newRaw, confirmationRaw)
    ensures NewPasswordErrors(newRaw, confirmationRaw) <= {NewPassword, PasswordConfirmation}
  {
  }

  /**
   * `PasswordForm`'s errors: those of the new-password fields, and a
   * `password` error when there is no user, when the current password is
   * blank (the field is required, and authentication refuses a missing
   * password) or when it does not authenticate the user.
   */
  function PasswordFormErrors(user: Option<User>, passwordRaw: string, newRaw: string, confirmationRaw: string,
                              authenticate: (string, string) -> bool): set<FormField> {
    var pw := CleanRequired(passwordRaw);
    var authenticated := user.Some? && pw.Some? && authenticate(user.value.username, pw.value);
    NewPasswordErrors(newRaw, confirmationRaw) + (if authenticated then {} else {Password})
  }

  /**
   * The password form is valid exactly when there is a user, the current
   * password is a non-blank value without NUL characters that authenticates
   * them, and the new password is acceptable and confirmed; without a user
   * there is always a `password` error.
   */
  lemma PasswordFormErrorsSpec(user: Option<User>, passwordRaw: string, newRaw: string, confirmationRaw: string,
                               authenticate: (string, string) -> bool)
    ensures PasswordFormErrors(user, passwordRaw, newRaw, confirmationRaw, authenticate) == {} <==>
      user.Some? && Strip(passwordRaw) != [] && '\0' !in Strip(passwordRaw)
      && authenticate(user.value.username, Strip(passwordRaw))
      && NewPasswordErrors(newRaw, confirmationRaw) == {}
    ensures user.None? ==> Password in PasswordFormErrors(user, passwordRaw, newRaw, confirmationRaw, authenticate)
  {
  }

  /**
   * `LogInForm.get_user`: `None` when the form is invalid — either field
   * blank or holding a NUL character — otherwise whatever authentication
   * returns for the stripped username and password.
   */
  function GetUser(usernameRaw: string, passwordRaw: string, authenticate: (string, string) -> Option<User>): (r: Option<User>)
    ensures Strip(usernameRaw) == [] || Strip(passwordRaw) == [] ==> r.None?
    ensures '\0' in Strip(usernameRaw) || '\0' in Strip(passwordRaw) ==> r.None?
    ensures Strip(usernameRaw) != [] && Strip(passwordRaw) != [] && '\0' !in Strip(usernameRaw) && '\0' !in Strip(passwordRaw)
      ==> r == authenticate(Strip(usernameRaw), Strip(passwordRaw))
  {
    var username := CleanRequired(usernameRaw);
    var password := CleanRequired(passwordRaw);
    if username.Some? && password.Some? then authenticate(username.value, password.value) else None
  }

  /**
   * A new password holding a NUL character fails its own field and, since
   * its cleaned value is then missing, the confirmation check too, whatever
   * the confirmation is.
   */
  lemma NullCharacterRejected(newRaw: string, confirmationRaw: string)
    requires '\0' in Strip(newRaw)
    ensures NewPasswordErrors(newRaw, confirmationRaw) == {NewPassword, PasswordConfirmation}
  {
    assert CleanNewPassword(newRaw) == None;
  }

  /** What `CreateTaskForm.save` produces: a task, or the lookup of a team that is not the user's. */
  datatype CreateOutcome = Created(task: Task) | TeamDoesNotExist

  /** The users, tasks and teams the forms write, keyed by primary key. */
  class Store {
    var users: map<nat, User>
    var tasks: map<nat, Task>
    var teams: map<nat, Team>
    var nextTaskId: nat
    var nextTeamId: nat

    /**
     * Every stored record sits under its own id and passes its model's field
     * constraints, usernames are unique, and the next ids are unused.
     */
    predicate Valid()
      reads this
    {
      (forall id :: id in users ==> users[id].id == id && ValidUser(users[id]))
      && UniqueUsernames(users)
      && (forall id :: id in tasks ==> tasks[id].id == id && id < nextTaskId && ValidTask(tasks[id]))
      && (forall id :: id in teams ==> teams[id].id == id && id < nextTeamId && ValidTeam(teams[id]))
    }

    constructor ()
      ensures Valid() && users == map[] && tasks == map[] && teams == map[]
    {
      users, tasks, teams := map[], map[], map[];
      nextTaskId, nextTeamId := 1, 1;
    }

    /**
     * `PasswordForm.save`: with a user, their password becomes the new one
     * and the user is written back; either way the form's user is returned.
     * The write succeeds only for a user whose fields are valid and whose
     * username no other account holds, as the database's constraints demand.
     */
    method PasswordSave(user: Option<User>, newPassword: string) returns (r: Option<User>)
      requires Valid()
      requires user.Some? ==> ValidUser(user.value)
      requires user.Some? ==> forall id :: id in users && users[id].username == user.value.username ==> id == user.value.id
      modifies this
      ensures Valid()
      ensures r.Some? <==> user.Some?
      ensures user.None? ==> users == old(users)
      ensures user.Some? ==> r.value == user.value.(password := newPassword)
      ensures user.Some? ==> users == old(users)[user.value.id := r.value]
      ensures tasks == old(tasks) && teams == old(teams)
      ensures nextTaskId == old(nextTaskId) && nextTeamId == old(nextTeamId)
    {
      r := user;
      if user.Some? {
        var u := user.value.(password := newPassword);
        users := users[u.id := u];
        r := Some(u);
      }
    }

    /**
     * `CreateTaskForm.save`: a task with the form's title, description and
     * due date and every other field at its default; with a `teamId` it is
     * owned by that team, which must be one of the user's teams. The form
     * saves only after validation, which checked the title and description
     * against the model's limits.
     */
    method CreateTaskSave(title: string, description: string, dueDate: int, userTeams: set<nat>, teamId: Option<nat>)
      returns (r: CreateOutcome)
      requires Valid()
      requires ValidTitle(title) && ValidDescription(description)
      modifies this
      ensures Valid()
      ensures r == TeamDoesNotExist <==> teamId.Some? && teamId.value !in userTeams
      ensures r == TeamDoesNotExist ==> tasks == old(tasks) && nextTaskId == old(nextTaskId)
      ensures r.Created? ==> r.task.id !in old(tasks) && tasks == old(tasks)[r.task.id := r.task]
      ensures r.Created? ==> |tasks| == |old(tasks)| + 1
      ensures r.Created? ==> r.task == NewTask(r.task.id, title, description, dueDate).(createdBy := teamId)
      ensures users == old(users) && teams == old(teams) && nextTeamId == old(nextTeamId)
    {
      var task := NewTask(nextTaskId, title, description, dueDate);
      if teamId.Some? {
        if teamId.value !in userTeams {
          return TeamDoesNotExist;
        }
        task := task.(createdBy := Some(teamId.value));
      }
      assert ValidTask(task);
      InsertAddsOne(tasks, task.id, task);
      tasks := tasks[task.id := task];
      nextTaskId := nextTaskId + 1;
      r := Created(task);
    }

    /** `CreateTeamForm.save`: a new team with the cleaned, validated name, administered by `user`. */
    method CreateTeamSave(teamName: string, user: User) returns (team: Team)
      requires Valid()
      requires ValidTeamName(teamName)
      modifies this
      ensures Valid()
      ensures team.name == teamName && team.admin == Some(user.id)
      ensures team.id !in old(teams) && teams == old(teams)[team.id := team]
      ensures users == old(users) && tasks == old(tasks) && nextTaskId == old(nextTaskId)
    {
      team := Team(nextTeamId, teamName, Some(user.id));
      teams := teams[team.id := team];
      nextTeamId := nextTeamId + 1;
    }

    /**
     * `EditTaskForm.save`: a task built from the form's title, description
     * and due date takes over the old task's id, owner and completion flag
     * and replaces it. The form has no priority field, so the new task has
     * the default priority. As for creation, validation has checked the
     * title and description.
     */
    method EditTaskSave(title: string, description: string, dueDate: int, oldTask: Task) returns (task: Task)
      requires Valid()
      requires ValidTitle(title) && ValidDescription(description)
      requires oldTask.id in tasks
      modifies this
      ensures Valid()
      ensures task.id == oldTask.id && task.createdBy == oldTask.createdBy && task.completed == oldTask.completed
      ensures task.title == title && task.description == description && task.dueDate == dueDate
      ensures task.priority == DefaultPriority
      ensures tasks == old(tasks)[oldTask.id := task]
      ensures |tasks| == |old(tasks)|
      ensures users == old(users) && teams == old(teams)
      ensures nextTaskId == old(nextTaskId) && nextTeamId == old(nextTeamId)
    {
      task := NewTask(nextTaskId, title, description, dueDate);
      task := task.(id := oldTask.id);
      task := task.(createdBy := oldTask.createdBy);
      task := task.(completed := oldTask.completed);
      ReplaceKeepsCount(tasks, task.id, task);
      tasks := tasks[task.id := task];
    }
  }

  /** Replacing a stored record keeps the set of keys, so the number of records is unchanged. */
  lemma ReplaceKeepsCount<V>(m: map<nat, V>, k: nat, v: V)
    requires k in m
    ensures m[k := v].Keys == m.Keys
    ensures |m[k := v]| == |m|
  {
    assert m[k := v].Keys == m.Keys;
  }

  /** Adding a record under a fresh key adds exactly one record. */
  lemma InsertAddsOne<V>(m: map<nat, V>, k: nat, v: V)
    requires k !in m
    ensures m[k := v].Keys == m.Keys + {k}
    ensures |m[k := v]| == |m| + 1
  {
    assert m[k := v].Keys == m.Keys + {k};
  }
}
