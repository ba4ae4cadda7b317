/** The login card (app/login/page.tsx): the outcome of `handleSubmit` and
    the staff role → route mapping. The result of `login`, the user
    `getUser` returns, and the two profile lookups are inputs. */
module Login {
  import opened Js

  const InvalidCredentials := "Invalid email or password."
  const UserNotFound := "Login successful but user data not found. Please try again."

  /** The route for a staff profile's role, compared after lower-casing. */
  function RouteForRole(role: string): (r: string)
    ensures ToLower(role) == "registrar" <==> r == "/registrar"
    ensures ToLower(role) == "dean" <==> r == "/dean"
    ensures ToLower(role) == "teacher" <==> r == "/teacher"
    ensures ToLower(role) == "accounts_receivable" <==> r == "/accounts"
    ensures ToLower(role) == "student" <==> r == "/history"
    ensures r in {"/registrar", "/dean", "/teacher", "/accounts", "/history", "/"}
  {
    var roleData := ToLower(role);
    if roleData == "registrar" then "/registrar"
    else if roleData == "dean" then "/dean"
    else if roleData == "teacher" then "/teacher"
    else if roleData == "accounts_receivable" then "/accounts"
    else if roleData == "student" then "/history"
    else "/"
  }

  /** The mapping ignores the case of the stored role. */
  lemma RouteIgnoresCase(role: string)
    ensures RouteForRole(ToLower(role)) == RouteForRole(role)
  {
    ToLowerIdempotent(role);
  }

  /** "Teacher" as stored with a capital still routes to the teacher
      dashboard. */
  lemma CapitalisedTeacherRoutes()
    ensures RouteForRole("Teacher") == "/teacher"
  {
    assert ToLower("Teacher") == "teacher" by {
      assert ToLower("Teacher")[0] == LowerChar('T');
    }
  }

  /** The error `login` resolves with. */
  datatype AuthError = AuthError(message: string)

  /** The state `handleSubmit` leaves behind: the error, the `loading` flag,
      the route pushed at once, and the route pushed after the 800 ms
      timeout. */
  datatype Outcome = Outcome(error: string, loading: bool, pushed: Option<string>, delayedPush: Option<string>)

  /** What `handleSubmit` does. `currentUser` is the id `getUser` returns,
      `studentProfile` whether the `students` lookup found a row, and
      `staffRole` the role of the `staff` row, if any. */
  function LoginOutcome(authError: Option<AuthError>, currentUser: Option<string>,
                        studentProfile: bool, staffRole: Option<string>): Outcome
  {
    if authError.Some? then
      Outcome(if authError.value.message != "" then authError.value.message else InvalidCredentials, false, None, None)
    else if currentUser.None? then Outcome(UserNotFound, false, None, None)
    else if studentProfile then Outcome("", false, None, Some("/"))
    else if staffRole.Some? then Outcome("", false, Some(RouteForRole(staffRole.value)), None)
    else Outcome("", false, Some("/profile/create"), None)
  }

  /** Every path ends with `loading` false; a failed login shows a non-empty
      error and goes nowhere; a student profile wins over a staff profile;
      and a user with neither is sent to create a profile. */
  lemma LoginOutcomeProperties(authError: Option<AuthError>, currentUser: Option<string>,
                               studentProfile: bool, staffRole: Option<string>)
    ensures var o := LoginOutcome(authError, currentUser, studentProfile, staffRole);
            !o.loading
            && (o.error != "" <==> authError.Some? || currentUser.None?)
            && (o.error != "" ==> o.pushed.None? && o.delayedPush.None?)
            && (o.delayedPush.Some? <==> authError.None? && currentUser.Some? && studentProfile)
            && (o.delayedPush.Some? ==> o.delayedPush.value == "/" && o.pushed.None?)
            && (authError.None? && currentUser.Some? && !studentProfile && staffRole.None?
                ==> o.pushed == Some("/profile/create"))
            && (authError.None? && currentUser.Some? && !studentProfile && staffRole.Some?
                ==> o.pushed == Some(RouteForRole(staffRole.value)))
  {
  }

  /** The card's state. */
  class LoginCard {
    var email: string
    var password: string
    var error: string
    var loading: bool
    var pushed: Option<string>
    var delayedPush: Option<string>

    constructor()
      ensures email == "" && password == "" && error == "" && !loading
      ensures pushed == None && delayedPush == None
    {
      email := "";
      password := "";
      error := "";
      loading := false;
      pushed := None;
      delayedPush := None;
    }

    /** `handleSubmit`. */
    method HandleSubmit(authError: Option<AuthError>, currentUser: Option<string>,
                        studentProfile: bool, staffRole: Option<string>)
      modifies this
      ensures var o := LoginOutcome(authError, currentUser, studentProfile, staffRole);
              error == o.error && loading == o.loading
              && pushed == (if o.pushed.Some? then o.pushed else old(pushed))
              && delayedPush == (if o.delayedPush.Some? then o.delayedPush else old(delayedPush))
      ensures email == old(email) && password == old(password)
    {
      error := "";
      loading := true;

      if authError.Some? {
        error := if authError.value.message != "" then authError.value.message else InvalidCredentials;
        loading := false;
        return;
      }

      if currentUser.Some? {
        if studentProfile {
          delayedPush := Some("/");
          loading := false;
          return;
        }
        if staffRole.Some? {
          pushed := Some(RouteForRole(staffRole.value));
          loading := false;
          return;
        }
        pushed := Some("/profile/create");
      } else {
        error := UserNotFound;
      }
      loading := false;
    }
  }
}
