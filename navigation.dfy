/** The staff navigation bars (components/TeacherNav.tsx,
    components/RegistrarNav.tsx, components/AccountsNav.tsx) and the student
    header (components/Header.tsx): which item is highlighted for a path,
    the logout label, and which links the header shows. The signed-in
    user's email, role and student id are inputs. */
module Navigation {
  import opened Js
  import opened Seqs

  // ------------------------------------------------------- logout label

  /** `user?.email?.split('@')[0]`; `None` when there is no user or email. */
  function EmailPrefix(email: Option<string>): (r: Option<string>)
    ensures r.Some? <==> email.Some?
    ensures r.Some? ==> StartsWith(email.value, r.value) && '@' !in r.value
    ensures r.Some? && '@' !in email.value ==> r.value == email.value
  {
    if email.None? then None else Some(BeforeFirst(email.value, '@'))
  }

  const LogoutSuffix := " (Logout)"

  /** `emailPrefix ? `${emailPrefix} (Logout)` : 'Logout'` */
  function NavLogoutLabel(email: Option<string>): (r: string)
    ensures Truthy(EmailPrefix(email)) ==> r == EmailPrefix(email).value + LogoutSuffix
    ensures !Truthy(EmailPrefix(email)) ==> r == "Logout"
  {
    var prefix := EmailPrefix(email);
    if Truthy(prefix) then prefix.value + LogoutSuffix else "Logout"
  }

  /** The label shows the local part of the address: the text before the
      first '@', recovered by dropping the suffix. */
  lemma NavLogoutLabelShowsLocalPart(local: string, domain: string)
    requires local != "" && '@' !in local
    ensures NavLogoutLabel(Some(local + "@" + domain)) == local + LogoutSuffix
  {
    var e := local + "@" + domain;
    assert e[..|local|] == local && e[|local|] == '@';
    assert FirstIndex(e, '@') == |local|;
    SplitAtFirst(e, '@');
  }

  /** An address that starts with '@' has an empty prefix and shows the
      plain label. */
  lemma LeadingAtShowsPlainLabel(domain: string)
    ensures NavLogoutLabel(Some("@" + domain)) == "Logout"
  {
    var e := "@" + domain;
    assert e[0] == '@';
    assert FirstIndex(e, '@') == 0;
    SplitAtFirst(e, '@');
  }

  // ------------------------------------------------------------ isActive

  /** `isActive(href, matchPrefix)` on the current pathname. */
  predicate IsActive(pathname: string, href: string, matchPrefix: bool) {
    if matchPrefix then pathname == href || StartsWith(pathname, href + "/")
    else pathname == href
  }

  /** A prefix item is active on every path below it. */
  lemma PrefixItemActiveBelow(href: string, rest: string)
    ensures IsActive(href + "/" + rest, href, true)
  {
    assert (href + "/" + rest)[..|href + "/"|] == href + "/";
  }

  /** A prefix item is not active on a longer path that continues its last
      segment ("/formsX" does not activate "/forms"). */
  lemma PrefixItemNotActiveOnLongerSegment(href: string, more: string)
    requires more != [] && more[0] != '/'
    ensures !IsActive(href + more, href, true)
  {
    var p := href + more;
    assert p[|href|] == more[0];
    assert (href + "/")[|href|] == '/';
  }

  /** An item without `matchPrefix` is active on its own path only. */
  lemma ExactItemOnlyOnItsPath(pathname: string, href: string)
    ensures IsActive(pathname, href, false) <==> pathname == href
  {
  }

  datatype NavItem = NavItem(href: string, text: string, matchPrefix: bool)

  const TeacherNavItems: seq<NavItem> := [
    NavItem("/teacher", "Dashboard", false),
    NavItem("/teacher/history", "History", false),
    NavItem("/forms", "All Forms", true)
  ]

  const RegistrarNavItems: seq<NavItem> := [
    NavItem("/registrar", "Dashboard", false),
    NavItem("/registrar/submissions", "Submissions", true),
    NavItem("/registrar/forms", "Forms", false),
    NavItem("/registrar/staff", "Staff", false)
  ]

  const AccountsNavItems: seq<NavItem> := [
    NavItem("/accounts", "Dashboard", false),
    NavItem("/accounts/history", "History", false),
    NavItem("/forms", "All Forms", true)
  ]

  /** The items highlighted on a path, in menu order. */
  function ActiveItems(items: seq<NavItem>, pathname: string): (r: seq<NavItem>)
    ensures forall x :: x in r <==> x in items && IsActive(pathname, x.href, x.matchPrefix)
    ensures IsSubsequence(r, items)
  {
    var active := (x: NavItem) => IsActive(pathname, x.href, x.matchPrefix);
    FilterIsSubsequence(items, active);
    Filter(items, active)
  }

  /** On "/teacher/history" only History is highlighted, not the Dashboard. */
  lemma TeacherHistoryHighlightsHistory()
    ensures IsActive("/teacher/history", "/teacher/history", false)
    ensures !IsActive("/teacher/history", "/teacher", false)
    ensures !IsActive("/teacher/history", "/forms", true)
  {
    assert "/teacher/history"[1] != "/forms/"[1];
  }

  /** On a submission's page the registrar's Submissions item is highlighted
      and the Dashboard is not. */
  lemma RegistrarSubmissionHighlightsSubmissions(id: string)
    ensures IsActive("/registrar/submissions/" + id, "/registrar/submissions", true)
    ensures !IsActive("/registrar/submissions/" + id, "/registrar", false)
  {
    PrefixItemActiveBelow("/registrar/submissions", id);
    assert "/registrar/submissions/" + id == "/registrar/submissions" + "/" + id;
    assert |"/registrar/submissions/" + id| != |"/registrar"|;
  }

  /** The registrar's Forms item has no `matchPrefix`, so a page below it
      does not highlight it. */
  lemma RegistrarFormsExactOnly(rest: string)
    ensures !IsActive("/registrar/forms/" + rest, "/registrar/forms", false)
  {
    assert |"/registrar/forms/" + rest| != |"/registrar/forms"|;
  }

  /** A form's submission page highlights the accounts bar's All Forms. */
  lemma AccountsFormPageHighlightsAllForms(id: string)
    ensures IsActive("/forms/submit/" + id, "/forms", true)
  {
    PrefixItemActiveBelow("/forms", "submit/" + id);
    assert "/forms/submit/" + id == "/forms" + "/" + ("submit/" + id);
  }

  /** "/accounts/history" highlights History but not the Dashboard. */
  lemma AccountsHistoryHighlightsHistory()
    ensures IsActive("/accounts/history", "/accounts/history", false)
    ensures !IsActive("/accounts/history", "/accounts", false)
  {
  }

  // -------------------------------------------------------------- header

  /** What the header reads from the auth context. */
  datatype HeaderAuth = HeaderAuth(signedIn: bool, email: Option<string>, role: Option<string>, studentId: Option<string>)

  /** The header's logout label: the student id for a student who has one,
      otherwise the email prefix, otherwise "Logout". */
  function HeaderLogoutLabel(a: HeaderAuth): (r: string)
    ensures a.role == Some("student") && Truthy(a.studentId) ==> r == a.studentId.value + LogoutSuffix
    ensures !(a.role == Some("student") && Truthy(a.studentId)) ==> r == NavLogoutLabel(a.email)
  {
    if a.role == Some("student") && Truthy(a.studentId) then a.studentId.value + LogoutSuffix
    else NavLogoutLabel(a.email)
  }

  /** An entry of the header: a link, or the logout button. */
  datatype HeaderEntry = Link(text: string, href: string) | LogoutButton(text: string)

  /** The two renderings of the header. */
  datatype Menu = Mobile | Desktop

  predicate ShowsFormHistory(a: HeaderAuth) {
    a.role == Some("student") && Truthy(a.studentId)
  }

  /** The entries of one rendering, in order; the two renderings differ in
      the Form History href ("/history" on mobile, "/history/" on desktop). */
  function HeaderEntries(a: HeaderAuth, menu: Menu): (r: seq<HeaderEntry>)
    ensures |r| >= 2 && r[0] == Link("All Forms", "/forms")
    ensures a.signedIn ==> r[|r| - 1] == LogoutButton(HeaderLogoutLabel(a))
    ensures !a.signedIn ==> r[|r| - 1] == Link("Login", "/login")
  {
    var history := if ShowsFormHistory(a) then [Link("Form History", if menu == Mobile then "/history" else "/history/")] else [];
    var teacher := if a.role == Some("teacher") then [Link("Teacher Dashboard", "/teacher")] else [];
    var dean := if a.role == Some("dean") then [Link("Dean Dashboard", "/dean")] else [];
    var last := if a.signedIn then LogoutButton(HeaderLogoutLabel(a)) else Link("Login", "/login");
    [Link("All Forms", "/forms")] + history + teacher + dean + [last]
  }

  /** The Form History link is shown exactly to a student with an id, and
      each dashboard link exactly to its role. */
  lemma HeaderRoleLinks(a: HeaderAuth, menu: Menu)
    ensures (exists h :: Link("Form History", h) in HeaderEntries(a, menu)) <==> ShowsFormHistory(a)
    ensures Link("Teacher Dashboard", "/teacher") in HeaderEntries(a, menu) <==> a.role == Some("teacher")
    ensures Link("Dean Dashboard", "/dean") in HeaderEntries(a, menu) <==> a.role == Some("dean")
  {
    var r := HeaderEntries(a, menu);
    if ShowsFormHistory(a) {
      assert r[1].Link? && r[1].text == "Form History";
      assert Link("Form History", r[1].href) in r;
    }
  }

  /** The Login link is shown exactly when nobody is signed in, and the
      logout button exactly when someone is. */
  lemma HeaderSignInEntries(a: HeaderAuth, menu: Menu)
    ensures Link("Login", "/login") in HeaderEntries(a, menu) <==> !a.signedIn
    ensures (exists l :: LogoutButton(l) in HeaderEntries(a, menu)) <==> a.signedIn
  {
    var r := HeaderEntries(a, menu);
    if a.signedIn {
      assert LogoutButton(HeaderLogoutLabel(a)) in r;
    } else {
      assert r[|r| - 1] in r;
    }
  }

  /** The two renderings list the same entries, except that the Form History
      link points to "/history" on mobile and "/history/" on desktop. */
  lemma HeaderRenderingsAgree(a: HeaderAuth)
    ensures |HeaderEntries(a, Mobile)| == |HeaderEntries(a, Desktop)|
    ensures forall k :: 0 <= k < |HeaderEntries(a, Mobile)| && HeaderEntries(a, Mobile)[k] != Link("Form History", "/history")
              ==> HeaderEntries(a, Desktop)[k] == HeaderEntries(a, Mobile)[k]
    ensures ShowsFormHistory(a) ==> HeaderEntries(a, Mobile)[1] == Link("Form History", "/history")
                                    && HeaderEntries(a, Desktop)[1] == Link("Form History", "/history/")
  {
  }
}
