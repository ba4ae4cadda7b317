/** The guards of the accounts and teacher sections (app/accounts/layout.tsx,
    app/teacher/layout.tsx): the redirect their effect issues and what they
    render, for the `user`, `role` and `loading` the auth hook hands them. */
module Layouts {
  import opened Js
  import Login

  /** What the layout reads from the auth hook. */
  datatype LayoutAuth = LayoutAuth(loading: bool, signedIn: bool, role: Option<string>)

  /** What the layout renders: the loading placeholder, nothing, or the
      section's pages. */
  datatype View = Placeholder | Nothing | Children

  /** The roles each section admits. */
  predicate AccountsAllowed(role: Option<string>) {
    role == Some("accounts_receivable") || role == Some("admin")
  }

  predicate TeacherAllowed(role: Option<string>) {
    role == Some("teacher") || role == Some("admin")
  }

  /** The home an unauthorised role is sent to from the accounts section. */
  function AccountsFallback(role: Option<string>): (r: string)
    ensures role == Some("student") <==> r == "/history"
    ensures role == Some("teacher") <==> r == "/teacher"
    ensures role == Some("dean") <==> r == "/dean"
    ensures role == Some("registrar") <==> r == "/registrar"
    ensures r in {"/history", "/teacher", "/dean", "/registrar", "/"}
  {
    if role == Some("student") then "/history"
    else if role == Some("teacher") then "/teacher"
    else if role == Some("dean") then "/dean"
    else if role == Some("registrar") then "/registrar"
    else "/"
  }

  /** The route the accounts layout's effect pushes, if any. */
  function AccountsRedirect(a: LayoutAuth): (r: Option<string>)
    ensures a.loading ==> r.None?
    ensures !a.loading && !a.signedIn ==> r == Some("/login")
    ensures (!a.loading && a.signedIn && !AccountsAllowed(a.role))
            ==> r == Some(AccountsFallback(a.role))
    ensures r.None? <==> a.loading || (a.signedIn && AccountsAllowed(a.role))
  {
    if a.loading then None
    else if !a.signedIn then Some("/login")
    else if !AccountsAllowed(a.role) then Some(AccountsFallback(a.role))
    else None
  }

  /** What the accounts layout renders. */
  function AccountsView(a: LayoutAuth): View {
    if a.loading then Placeholder
    else if !a.signedIn || !AccountsAllowed(a.role) then Nothing
    else Children
  }

  /** The route the teacher layout's effect pushes, if any. */
  function TeacherRedirect(a: LayoutAuth): (r: Option<string>)
    ensures a.loading ==> r.None?
    ensures !a.loading && !a.signedIn ==> r == Some("/login")
    ensures !a.loading && a.signedIn && !TeacherAllowed(a.role) ==> r == Some("/")
    ensures r.None? <==> a.loading || (a.signedIn && TeacherAllowed(a.role))
  {
    if a.loading then None
    else if !a.signedIn then Some("/login")
    else if !TeacherAllowed(a.role) then Some("/")
    else None
  }

  /** What the teacher layout renders. */
  function TeacherView(a: LayoutAuth): View {
    if a.loading then Placeholder
    else if !a.signedIn || !TeacherAllowed(a.role) then Nothing
    else Children
  }

  /** The accounts pages are shown exactly to a signed-in accounts or admin
      user once loading is over; the layout renders nothing exactly when its
      effect redirects; and nothing is redirected while loading. */
  lemma AccountsGuard(a: LayoutAuth)
    ensures AccountsView(a) == Children <==> !a.loading && a.signedIn && AccountsAllowed(a.role)
    ensures AccountsView(a) == Nothing <==> AccountsRedirect(a).Some?
    ensures AccountsView(a) == Placeholder <==> a.loading
    ensures AccountsView(a) == Children ==> AccountsRedirect(a).None?
  {
  }

  /** The same three facts for the teacher section. */
  lemma TeacherGuard(a: LayoutAuth)
    ensures TeacherView(a) == Children <==> !a.loading && a.signedIn && TeacherAllowed(a.role)
    ensures TeacherView(a) == Nothing <==> TeacherRedirect(a).Some?
    ensures TeacherView(a) == Placeholder <==> a.loading
    ensures TeacherView(a) == Children ==> TeacherRedirect(a).None?
  {
  }

  /** Only an admin is admitted to both sections. */
  lemma OnlyAdminSeesBoth(a: LayoutAuth)
    requires AccountsView(a) == Children && TeacherView(a) == Children
    ensures a.role == Some("admin")
  {
  }

  /** The accounts layout compares the role exactly: a capitalised
      "Teacher" is not recognised and is sent to "/". */
  lemma CapitalisedRoleSentHome()
    ensures AccountsRedirect(LayoutAuth(false, true, Some("Teacher"))) == Some("/")
  {
    assert "Teacher" != "teacher" by { assert "Teacher"[0] != "teacher"[0]; }
  }

  /** For the four roles it names, the accounts layout sends a user to the
      same home as the login page does. */
  lemma AccountsFallbackAgreesWithLogin(role: string)
    requires role in {"student", "teacher", "dean", "registrar"}
    ensures AccountsFallback(Some(role)) == Login.RouteForRole(role)
  {
    LowerCaseUnchanged(role);
  }
}
