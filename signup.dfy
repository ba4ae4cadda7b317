/** The sign-up form (app/signup/page.tsx): the password checks of
    `handleSubmit`, the call to `signUp`, and the state the page is left in.
    The result of `signUp` and whether a user is signed in afterwards are
    inputs. */
module Signup {
  import opened Js

  const PasswordsDiffer := "Passwords do not match."
  const PasswordTooShort := "Password must be at least 6 characters long."
  const SignUpFailed := "Failed to create account. Please try again."
  const ConfirmEmail := "Account created! Please check your email to confirm your account, then log in."

  /** The shortest password `handleSubmit` accepts. */
  const MinPasswordLength := 6

  /** The two checks in order; `None` means both pass. */
  function PasswordError(password: string, confirmPassword: string): (r: Option<string>)
    ensures password != confirmPassword ==> r == Some(PasswordsDiffer)
    ensures password == confirmPassword && |password| < MinPasswordLength ==> r == Some(PasswordTooShort)
    ensures r.None? <==> password == confirmPassword && |password| >= MinPasswordLength
  {
    if password != confirmPassword then Some(PasswordsDiffer)
    else if |password| < MinPasswordLength then Some(PasswordTooShort)
    else None
  }

  /** A mismatched pair reports the mismatch even when the password is too
      short, because the mismatch is checked first. */
  lemma MismatchReportedBeforeLength(password: string, confirmPassword: string)
    requires password != confirmPassword && |password| < MinPasswordLength
    ensures PasswordError(password, confirmPassword) == Some(PasswordsDiffer)
  {
  }

  /** The error `signUp` resolves with. */
  datatype AuthError = AuthError(message: string)

  /** The state `handleSubmit` leaves behind. */
  datatype Outcome = Outcome(error: string, loading: bool, signUpCalled: bool, pushed: Option<string>)

  /** What `handleSubmit` does, given the result of `signUp` and whether
      `getUser` then finds a user. */
  function SignupOutcome(password: string, confirmPassword: string, signUpError: Option<AuthError>, signedIn: bool): Outcome {
    match PasswordError(password, confirmPassword)
    case Some(msg) => Outcome(msg, false, false, None)
    case None =>
      if signUpError.Some? then
        Outcome(if signUpError.value.message != "" then signUpError.value.message else SignUpFailed, false, true, None)
      else if signedIn then Outcome("", true, true, Some("/profile/create"))
      else Outcome(ConfirmEmail, false, true, None)
  }

  /** `signUp` is reached iff the passwords match and are long enough; every
      path that stops sets `loading` back to false with a non-empty error,
      and only the redirect to profile creation keeps it set. */
  lemma SignupOutcomeProperties(password: string, confirmPassword: string, signUpError: Option<AuthError>, signedIn: bool)
    ensures var o := SignupOutcome(password, confirmPassword, signUpError, signedIn);
            (o.signUpCalled <==> password == confirmPassword && |password| >= MinPasswordLength)
            && (o.loading <==> o.pushed.Some?)
            && (o.loading <==> o.error == "")
            && (o.pushed.Some? <==> o.signUpCalled && signUpError.None? && signedIn)
            && (o.pushed.Some? ==> o.pushed.value == "/profile/create")
  {
  }

  /** The page's state. */
  class SignupPage {
    var email: string
    var password: string
    var confirmPassword: string
    var error: string
    var loading: bool
    var pushed: Option<string>

    constructor()
      ensures email == "" && password == "" && confirmPassword == ""
      ensures error == "" && !loading && pushed == None
    {
      email := "";
      password := "";
      confirmPassword := "";
      error := "";
      loading := false;
      pushed := None;
    }

    /** `handleSubmit`: resets the error, sets `loading`, and stops at the
        first failing check. `signUpCalled` says whether `signUp(email,
        password)` was called. */
    method HandleSubmit(signUpError: Option<AuthError>, signedIn: bool) returns (signUpCalled: bool)
      modifies this
      ensures var o := SignupOutcome(password, confirmPassword, signUpError, signedIn);
              error == o.error && loading == o.loading && signUpCalled == o.signUpCalled
              && pushed == (if o.pushed.Some? then o.pushed else old(pushed))
      ensures email == old(email) && password == old(password) && confirmPassword == old(confirmPassword)
    {
      signUpCalled := false;
      error := "";
      loading := true;

      if password != confirmPassword {
        error := PasswordsDiffer;
        loading := false;
        return;
      }

      if |password| < MinPasswordLength {
        error := PasswordTooShort;
        loading := false;
        return;
      }

      signUpCalled := true;
      if signUpError.Some? {
        error := if signUpError.value.message != "" then signUpError.value.message else SignUpFailed;
        loading := false;
        return;
      }

      if signedIn {
        pushed := Some("/profile/create");
      } else {
        error := ConfirmEmail;
        loading := false;
      }
    }
  }
}
