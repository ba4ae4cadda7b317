/** The authentication context (context/AuthContext.tsx): the provider's
    `studentId` state with its `login` and `logout` setters, and the
    `useAuth` hook's check that a provider is present. */
module AuthContext {
  import opened Js

  const OutsideProvider := "useAuth must be used within AuthProvider"

  /** The provider's state. */
  class AuthProvider {
    var studentId: Option<string>

    /** The state starts empty. */
    constructor()
      ensures studentId == None
    {
      studentId := None;
    }

    /** `login(id)` replaces the stored id, whatever it was. */
    method Login(id: string)
      modifies this
      ensures studentId == Some(id)
    {
      studentId := Some(id);
    }

    /** `logout()` clears the stored id. */
    method Logout()
      modifies this
      ensures studentId == None
    {
      studentId := None;
    }
  }

  /** `useAuth()`: the context value when a provider is above the caller,
      otherwise the error it throws. */
  function UseAuth<T>(context: Option<T>): (r: Result<T, string>)
    ensures r.Ok? <==> context.Some?
    ensures r.Ok? ==> r.value == context.value
    ensures r.Err? ==> r.error == OutsideProvider
  {
    if context.None? then Err(OutsideProvider) else Ok(context.value)
  }

  /** A provider after a run of calls: the last `login` wins, a `logout`
      clears the id, and a second `logout` leaves it cleared. */
  method LoginTwiceThenLogoutTwice(first: string, second: string)
    returns (afterFirst: Option<string>, afterSecond: Option<string>,
             afterLogout: Option<string>, afterSecondLogout: Option<string>)
    ensures afterFirst == Some(first)
    ensures afterSecond == Some(second)
    ensures afterLogout == None && afterSecondLogout == None
  {
    var provider := new AuthProvider();
    provider.Login(first);
    afterFirst := provider.studentId;
    provider.Login(second);
    afterSecond := provider.studentId;
    provider.Logout();
    afterLogout := provider.studentId;
    provider.Logout();
    afterSecondLogout := provider.studentId;
  }
}
