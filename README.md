# ub-formflow portal: a verified model of its decision logic

ub-formflow is a Next.js portal. Students download and submit university forms, and staff (teachers, accounts receivable, the registrar, the dean) approve them step by step. Almost every page queries a hosted database and renders rows. This project lifts out the logic inside those pages and proves properties about it in Dafny:

- **Approval queues.**
  - The accounts-receivable queue shows a pending step only when every sibling step with a strictly smaller `sequence_order` is approved.
  - The teacher queue filters on status and assignee only.
  - The teacher page normalises an "object or array" join.
  - It builds the approval-type label.
- **Receipt endpoint.**
  - The cookie-header parser is modelled as a method with a loop, proved against a specification function.
  - The student id, form name and file name come from `||` fallbacks.
  - The 500 response is returned when percent-decoding throws or rendering rejects.
- **Forms with guards.**
  - The student-profile guard chain, with the rows it inserts.
  - The sign-up password checks.
  - The upload widget's three-field state machine.
  - The login page's post-login routing.
- **Form selection.** The submit page picks a form from the static table, with fallbacks.
- **Search and filters.**
  - The history page: normalisation, status labels, case-insensitive search.
  - The form catalogue: a deduplicated, sorted category list.
  - The registrar's submission search.
- **Navigation and access.**
  - The active-item rule and logout labels of the three staff bars.
  - The student header's links.
  - The accounts and teacher section guards.
  - The `studentId` store of the auth context.

Database results, the signed-in user and their role are inputs. So are the results of `login`, `signUp` and `getUser`.

The `||` operator is modelled with JavaScript's meaning, where `""` is falsy. The other JavaScript string operations are modelled in the shared module `Js`:
- `replace` with a string pattern replaces only the first occurrence.
- `split(c)[0]` is the whole string when `c` does not occur.
- `includes("")` is true.
- `toLowerCase` lower-cases ASCII letters only.
- `trim` removes JavaScript white space.

`decodeURIComponent` is a parameter `decode: string -> Option<string>`. `None` stands for the URIError it throws.

Behaviour of the code as written that the proofs make visible:
- **Failed sibling fetch.** In the accounts queue, a step whose sibling fetch fails is shown as ready. The sibling list becomes `[]` (`FailedSiblingFetchShowsStep`).
- **Equal sequence orders.** Two pending steps of equal order are both shown (`EqualOrdersBothQueued`).
- **Teacher queue.** The teacher queue shows a step even when an earlier step of its submission is unapproved (`TeacherQueueIgnoresPredecessors`).
- **Catalogue tag.** A catalogue tag spelled "All Categories" is listed twice (`AllCategoriesTagListedTwice`).
- **Form History link.** The header's Form History link goes to "/history" on mobile and "/history/" on desktop.
- **Role case.**
  - The login page lower-cases the staff role before routing.
  - The accounts guard compares roles exactly, so a stored "Teacher" is routed to "/teacher" by login but to "/" by the accounts guard (`CapitalisedTeacherRoutes`, `CapitalisedRoleSentHome`).
- **Auth context.** `context/AuthContext.tsx` provides only `studentId`, `login(id)` and `logout()`. Its callers read `user`, `role`, `loading` and `signUp` from it, and call `login(email, password)`. The context is modelled as written, and what the callers receive is an input to each of their models.

Files:
- `js.dfy`, `seqs.dfy`: the JavaScript string semantics, filtering, subsequences, sortedness, and an order on strings.
- `approvals.dfy`, `accounts_dashboard.dfy`, `teacher_dashboard.dfy`: the approval records and the two queues.
- `receipt.dfy`: the receipt endpoint.
- `profile_create.dfy`, `signup.dfy`, `login.dfy`: the three auth-related forms.
- `submit_card.dfy`, `forms_config.dfy`, `submit_page.dfy`: form download and upload.
- `history.dfy`, `forms_catalog.dfy`, `registrar_search.dfy`: search and filter.
- `navigation.dfy`, `layouts.dfy`, `auth_context.dfy`: navigation, guards and the auth context.

## Model

| member | source | states |
|---|---|---|
| AccountsDashboard.Candidates | app/accounts/page.tsx:72-74 | exactly the pending `accounts_receivable` rows are candidates, kept in table order (a subsequence) |
| AccountsDashboard.SiblingsIn | app/accounts/page.tsx:81-84 | the sibling list holds exactly the rows of the same `form_submission_id`, projected to id/status/order |
| AccountsDashboard.AttachSiblings | app/accounts/page.tsx:79-91 | every candidate, in order, is paired with its submission's siblings |
| AccountsDashboard.HasPendingPrecedingApproval | app/accounts/page.tsx:95-97 | true iff some sibling with strictly smaller `sequence_order` is not approved, i.e. iff not all predecessors are approved |
| AccountsDashboard.ReadyApprovals | app/accounts/page.tsx:94-99 | a candidate is kept iff no unapproved sibling precedes it; the result is a subsequence of the candidates |
| AccountsDashboard.NoSmallerSiblingIsReady | app/accounts/page.tsx:95-98 | a step with no sibling of smaller order is always ready |
| AccountsDashboard.UnapprovedPredecessorBlocks | app/accounts/page.tsx:96 | any predecessor whose status is not 'approved' (pending, rejected, anything) blocks the step |
| AccountsDashboard.LaterSiblingsIrrelevant | app/accounts/page.tsx:96 | adding siblings of equal or larger order never changes readiness |
| AccountsDashboard.LaterSiblingsNeverBlock | app/accounts/page.tsx:96 | siblings of equal or larger order (including the step itself) never block |
| AccountsDashboard.FailedSiblingFetchShowsStep | app/accounts/page.tsx:88 | a failed sibling fetch (`siblings || []`) leaves the step ready |
| AccountsDashboard.AccountsQueueMembership | app/accounts/page.tsx:72-99 | a step of the table is shown iff it is a pending accounts step and no step of its submission with smaller order is unapproved |
| AccountsDashboard.QueuedEntryShape | app/accounts/page.tsx:72-99 | every shown entry is a pending accounts step of the table, unblocked, carrying its own sibling list |
| AccountsDashboard.PredecessorsInTable | app/accounts/page.tsx:81-97 | readiness over the fetched siblings equals readiness over the whole table |
| AccountsDashboard.AccountsQueueInCreatedOrder | app/accounts/page.tsx:74-99 | a table listed by `created_at` ascending gives a queue in `created_at` ascending order |
| AccountsDashboard.AtMostOneStepPerSubmission | app/accounts/page.tsx:94-99 | when orders are distinct within a submission, at most one step per submission is shown |
| AccountsDashboard.EqualOrdersBothQueued | app/accounts/page.tsx:96 | two pending steps of equal order are both shown |
| TeacherDashboard.TeacherQueue | app/teacher/page.tsx:93-95 | exactly the pending rows assigned to the user, in table order |
| TeacherDashboard.TeacherQueueInCreatedOrder | app/teacher/page.tsx:95 | the teacher queue keeps the `created_at` ascending order |
| TeacherDashboard.TeacherQueueIgnoresPredecessors | app/teacher/page.tsx:93-94 | a pending step assigned to the teacher is listed even when the accounts readiness rule would hide it |
| TeacherDashboard.MapApproval | app/teacher/page.tsx:29-58 | an object join is used as is, an array join by its first element; a missing or empty join throws "Missing submission data for approval"; the fields are copied unchanged |
| TeacherDashboard.MapAll | app/teacher/page.tsx:98 | the map succeeds iff every row maps, keeping length and order; otherwise it throws the same error |
| TeacherDashboard.TeacherApprovals | app/teacher/page.tsx:61-107 | after one run of the fetch effect the page shows exactly the mapped rows in order (each `MapApproval` of its row); when any row throws, the list shown before stays (the initial `[]` on the first run) |
| TeacherDashboard.ApprovalTypeLabel | app/teacher/page.tsx:160 | the label is the type with " Approval" appended and the first '_' turned into a space; a type without '_' is kept as is |
| TeacherDashboard.LabelKeepsLaterUnderscores | app/teacher/page.tsx:160 | only the first '_' is replaced; later ones stay |
| TeacherDashboard.LabelOfUnderscoredType | app/teacher/page.tsx:160 | for `p_q` with no '_' in p, the label is `p q Approval` |
| Receipt.ParseCookies | app/api/receipt/route.ts:9-20 | the loop computes the specification map (or the thrown URIError), and every key of the map is non-empty |
| Receipt.ErrorPersists | app/api/receipt/route.ts:17 | once a decode has thrown, later parts do not change the outcome |
| Receipt.EmptyHeaderGivesEmptyMap | app/api/receipt/route.ts:11 | a null or empty header gives the empty map |
| Receipt.PartSplitsAtFirstEquals | app/api/receipt/route.ts:14-16 | the key is the trimmed text before the first '=', the value the trimmed rest joined on '=' (later '=' stay in the value); without '=' the value is "" |
| Receipt.PartWithoutEqualsMapsToEmpty | app/api/receipt/route.ts:14-17 | a part without '=' maps its trimmed text to "" |
| Receipt.ParsedKeys | app/api/receipt/route.ts:15-17 | the keys of the map are exactly the non-empty trimmed keys of the parts |
| Receipt.LastOccurrenceWins | app/api/receipt/route.ts:17 | a key's value is the decoded value of its last occurrence |
| Receipt.ParseFailsIff | app/api/receipt/route.ts:17 | parsing throws iff some part with a non-empty key fails to decode |
| Receipt.QueryGet | app/api/receipt/route.ts:36-37 | `searchParams.get` finds a value iff the name occurs, and returns a value given for it |
| Receipt.StudentIdOf | app/api/receipt/route.ts:36 | the cookie if non-empty, else the query parameter if non-empty, else "N/A" |
| Receipt.FormNameOf | app/api/receipt/route.ts:37 | `title` if non-empty, else `formName` if non-empty, else "Untitled" |
| Receipt.ReceiptFilename | app/api/receipt/route.ts:39 | `receipt-<id>.pdf`, with the id recoverable from between prefix and suffix |
| Receipt.ReceiptGet | app/api/receipt/route.ts:31-57 | the 500 "Error generating PDF" iff cookie parsing throws or rendering rejects; otherwise the id is `StudentIdOf` the parsed cookies and the query, the form name `FormNameOf` the query, and the file name is derived from the id |
| Receipt.ReceiptFieldsPresent | app/api/receipt/route.ts:36-39 | a successful response has a non-empty id and form name, and the id can be read back from the file name |
| Receipt.EmptyCookieFallsThrough | app/api/receipt/route.ts:36 | an empty `studentId` cookie falls through to the query parameter |
| ProfileCreate.ChangeField | app/profile/create/page.tsx:70-73 | the named field takes the value and every other field keeps its own |
| ProfileCreate.ChangeFieldLastWins | app/profile/create/page.tsx:70-73 | changing a field twice keeps only the second value |
| ProfileCreate.ValidationError | app/profile/create/page.tsx:84-108 | no user, then empty required fields, then non-digits, then length ≠ 10, first failure wins; no error iff user present, names non-empty, id ten digits |
| ProfileCreate.AcceptedStudentIdIsTenDigits | app/profile/create/page.tsx:98-108 | an accepted student id is exactly ten ASCII digits |
| ProfileCreate.OrNull | app/profile/create/page.tsx:130-132 | `s || null`: null exactly for "" |
| ProfileCreate.StudentRecord | app/profile/create/page.tsx:125-134 | the row copies the id and names, stores empty optional fields as null, and is always 'active' |
| ProfileCreate.ThrownMessage | app/profile/create/page.tsx:143 | the shown error is the database message, or the fallback when it is empty; never empty |
| ProfileCreate.SubmitSucceedsIff | app/profile/create/page.tsx:81-145 | the page goes to "/" iff all checks pass and neither insert fails (23505 tolerated); only then does `submitting` stay set and the error stay empty |
| ProfileCreate.WritesFollowChecks | app/profile/create/page.tsx:110-138 | nothing is written unless all checks pass; the student row is written only after the profile insert succeeded or hit 23505 |
| ProfileCreate.UniqueViolationTolerated | app/profile/create/page.tsx:119-122 | a 23505 profile error behaves exactly like success |
| ProfileCreate.NoUserStopsFirst | app/profile/create/page.tsx:84-88 | without a user the error is the login message and nothing else runs |
| ProfileCreate.CreateProfilePage.constructor | app/profile/create/page.tsx:38-47 | empty form, no error, not submitting |
| ProfileCreate.CreateProfilePage.HandleChange | app/profile/create/page.tsx:70-73 | the form becomes `ChangeField` of the old form; nothing else changes |
| ProfileCreate.CreateProfilePage.HandleSubmit | app/profile/create/page.tsx:81-145 | the step-by-step handler leaves exactly the state and writes of `SubmitOutcome` |
| Signup.PasswordError | app/signup/page.tsx:39-50 | a mismatch reports "Passwords do not match.", a short password the length message; no error iff equal and at least 6 long |
| Signup.MismatchReportedBeforeLength | app/signup/page.tsx:39-50 | a short mismatched pair reports the mismatch |
| Signup.SignupOutcomeProperties | app/signup/page.tsx:33-77 | `signUp` is called iff the checks pass; loading stays set iff the page redirects to /profile/create, iff the error is empty |
| Signup.SignupPage.constructor | app/signup/page.tsx:27-31 | empty fields, no error, not loading |
| Signup.SignupPage.HandleSubmit | app/signup/page.tsx:33-77 | the handler leaves exactly the state of `SignupOutcome` and reports whether `signUp` was called |
| SubmitCard.AllowedExtensionAccepted | app/submit/SubmitCard.tsx:48-53 | any name whose last characters lower-case to .pdf, .png, .jpg or .jpeg is allowed, whatever the MIME type |
| SubmitCard.UpperCaseExtensionAllowed | app/submit/SubmitCard.tsx:48-53 | a name ending ".PDF" is allowed whatever its MIME type |
| SubmitCard.AllowedTypeAccepted | app/submit/SubmitCard.tsx:48-49 | an allowed MIME type is accepted whatever the name |
| SubmitCard.UnknownFileRefused | app/submit/SubmitCard.tsx:48-53 | an unlisted type with no allowed extension is refused |
| SubmitCard.UploadedMessage | app/submit/SubmitCard.tsx:84 | the message starts with the file name and ends " was uploaded successfully." |
| SubmitCard.Card.constructor | app/submit/SubmitCard.tsx:34-36 | no file, no message, idle |
| SubmitCard.Card.HandleFiles | app/submit/SubmitCard.tsx:42-65 | an absent or empty list changes nothing; only the first file is examined; a refused file clears the selection with status error and the refusal message; an allowed one is selected with status idle and no message |
| SubmitCard.Card.HandleUpload | app/submit/SubmitCard.tsx:76-85 | no file: error and "Please add a file before uploading."; a file: success and its upload message; the selection is kept |
| SubmitCard.Card.HandleCancel | app/submit/SubmitCard.tsx:87-94 | back to no file, idle, no message, input cleared |
| SubmitCard.RefusedFileThenUpload | app/submit/SubmitCard.tsx:42-85 | after a refused file an upload reports the missing file |
| SubmitCard.SelectThenUpload | app/submit/SubmitCard.tsx:42-85 | selecting an allowed file and uploading reports that file |
| FormsConfig.TableShape | lib/forms.ts:10-75 | eight entries, the first with id "transcript", ids pairwise distinct |
| FormsConfig.UrlsUnderForms | lib/forms.ts:16-72 | every download URL starts "/forms/" |
| FormsConfig.UrlsArePdf | lib/forms.ts:16-72 | every download URL ends ".pdf" |
| FormsConfig.FileNamesArePdf | lib/forms.ts:17-73 | every file name ends ".pdf" |
| FormsConfig.EntriesWellFormed | lib/forms.ts:16-73 | every download URL starts "/forms/" and ends ".pdf", and every file name ends ".pdf" |
| SubmitPage.SelectedFormId | app/submit/page.tsx:21-23 | an array parameter is read by its first element, a single one as is |
| SubmitPage.FindById | app/submit/page.tsx:26 | `find` returns nothing iff no entry has the id, else an entry with that id |
| SubmitPage.ResolveForm | app/submit/page.tsx:12-27 | notFound iff the table is empty; otherwise a table entry |
| SubmitPage.NoIdSelectsFirst | app/submit/page.tsx:25-27 | an absent or empty id selects the first entry |
| SubmitPage.KnownIdSelectsFirstMatch | app/submit/page.tsx:26 | a known id selects the first entry with that id |
| SubmitPage.UnknownIdFallsBack | app/submit/page.tsx:26 | an unknown id falls back to the first entry |
| SubmitPage.ArrayParamUsesFirst | app/submit/page.tsx:21-23 | a repeated parameter resolves as its first value alone |
| SubmitPage.ShippedTableFallback | app/submit/page.tsx:12-27 | on the shipped table, an absent or unknown id shows the "transcript" form |
| History.NormalizeFormTypes | app/history/page.tsx:73-78 | an array becomes its first element or null, an object stays, a missing join is null |
| History.Normalize | app/history/page.tsx:73-78 | only the join changes; the other fields are copied |
| History.NormalizeAll | app/history/page.tsx:73-78 | every row is normalised, in order |
| History.StatusLabel | app/history/page.tsx:90-114 | "approved" iff "Completed", "rejected" iff "Rejected", anything else "In Progress" |
| History.FilteredSubmissions | app/history/page.tsx:116-130 | kept iff the search matches and the status filter is "All Status" or equals the label; a subsequence |
| History.NoFilterKeepsAll | app/history/page.tsx:116-130 | the empty query under "All Status" keeps every submission |
| History.UnknownStatusFilterKeepsNone | app/history/page.tsx:126-127 | a filter that is none of the labels keeps nothing |
| History.SearchIgnoresQueryCase | app/history/page.tsx:118-124 | the query's case does not matter |
| History.ExactNameFound | app/history/page.tsx:118-124 | a form name containing the query verbatim matches |
| History.FilteredNewestFirst | app/history/page.tsx:69-130 | newest-first input gives newest-first output |
| FormsCatalog.AllTags | app/forms/page.tsx:73 | the flat tag list holds exactly the tags of some form |
| FormsCatalog.AvailableCategories | app/forms/page.tsx:71-74 | "All Categories" first, then exactly the tags of the forms, strictly sorted (so each once) |
| FormsCatalog.CategoriesAreTheSortedTags | app/forms/page.tsx:73 | the tail is the unique strictly sorted list of the tags |
| FormsCatalog.UntaggedFormsAddNothing | app/forms/page.tsx:73 | a form with null tags adds no category |
| FormsCatalog.FilteredForms | app/forms/page.tsx:76-87 | kept iff the search and the category match; a subsequence |
| FormsCatalog.NoFilterKeepsAll | app/forms/page.tsx:76-87 | the empty query under "All Categories" keeps every form |
| FormsCatalog.UntaggedFormOnlyUnderAll | app/forms/page.tsx:83-84 | a form with null tags is shown only under "All Categories" |
| FormsCatalog.OfferedCategoryIsInhabited | app/forms/page.tsx:71-87 | every offered category selects at least one form |
| FormsCatalog.AllCategoriesTagListedTwice | app/forms/page.tsx:71-73 | a tag spelled "All Categories" appears twice in the list |
| RegistrarSearch.FilteredSubmissions | app/registrar/submissions/page.tsx:48-54 | kept iff the lower-cased term occurs in a name, the student id, the form name or the submission number; a subsequence |
| RegistrarSearch.MissingNumberMatchesByOtherFields | app/registrar/submissions/page.tsx:53 | a row without a number matches iff another field does |
| RegistrarSearch.EmptyTermKeepsAll | app/registrar/submissions/page.tsx:48-54 | the empty term keeps every row |
| RegistrarSearch.StudentIdFound | app/registrar/submissions/page.tsx:48-54 | a student id containing the term verbatim matches |
| RegistrarSearch.FilteredNewestFirst | app/registrar/submissions/page.tsx:34-54 | newest-first input gives newest-first output |
| Navigation.EmailPrefix | components/TeacherNav.tsx:25 | the text before the first '@' (the whole address when there is none); null without an email |
| Navigation.NavLogoutLabel | components/TeacherNav.tsx:25-26 | "<prefix> (Logout)" for a non-empty prefix, else "Logout" (the same in RegistrarNav.tsx and AccountsNav.tsx at 17-18) |
| Navigation.NavLogoutLabelShowsLocalPart | components/TeacherNav.tsx:25-26 | `local@domain` gives "local (Logout)" |
| Navigation.LeadingAtShowsPlainLabel | components/TeacherNav.tsx:25-26 | an address starting with '@' gives "Logout" |
| Navigation.PrefixItemActiveBelow | components/TeacherNav.tsx:28-33 | a prefix item is active on every path below it |
| Navigation.PrefixItemNotActiveOnLongerSegment | components/TeacherNav.tsx:28-33 | "/formsX" does not activate "/forms" |
| Navigation.ExactItemOnlyOnItsPath | components/TeacherNav.tsx:28-33 | without matchPrefix an item is active iff the path equals its href |
| Navigation.ActiveItems | components/TeacherNav.tsx:35-39 | the highlighted items are exactly the active ones, in menu order |
| Navigation.TeacherHistoryHighlightsHistory | components/TeacherNav.tsx:35-39 | on "/teacher/history" History is active, Dashboard and All Forms are not |
| Navigation.RegistrarSubmissionHighlightsSubmissions | components/RegistrarNav.tsx:27-32 | a submission page activates Submissions but not Dashboard |
| Navigation.RegistrarFormsExactOnly | components/RegistrarNav.tsx:30 | a page below "/registrar/forms" does not activate Forms |
| Navigation.AccountsFormPageHighlightsAllForms | components/AccountsNav.tsx:30 | "/forms/submit/<id>" activates All Forms |
| Navigation.AccountsHistoryHighlightsHistory | components/AccountsNav.tsx:28-29 | "/accounts/history" activates History but not Dashboard |
| Navigation.HeaderLogoutLabel | components/Header.tsx:22-30 | a student with an id gets "<id> (Logout)", anyone else the email-prefix label |
| Navigation.HeaderEntries | components/Header.tsx:68-199 | All Forms first; the last entry is the logout button when signed in, the Login link otherwise |
| Navigation.HeaderRoleLinks | components/Header.tsx:80-181 | Form History iff a student with an id; each dashboard link iff its role |
| Navigation.HeaderSignInEntries | components/Header.tsx:124-199 | the Login link iff signed out; the logout button iff signed in |
| Navigation.HeaderRenderingsAgree | components/Header.tsx:68-199 | both renderings list the same entries, except that Form History points to "/history" on mobile and "/history/" on desktop |
| Login.RouteForRole | app/login/page.tsx:72-86 | on the lower-cased role: registrar, dean, teacher, accounts_receivable, student to their homes; anything else "/" |
| Login.RouteIgnoresCase | app/login/page.tsx:72 | the route does not depend on the role's case |
| Login.CapitalisedTeacherRoutes | app/login/page.tsx:72-79 | a stored "Teacher" routes to "/teacher" |
| Login.LoginOutcomeProperties | app/login/page.tsx:32-97 | loading ends false; an error (the auth message or its fallback, or the user-not-found message) means no redirect; a student profile wins with a delayed push to "/"; a staff role routes by role; neither goes to "/profile/create" |
| Login.LoginCard.constructor | app/login/page.tsx:27-30 | empty fields, no error, not loading |
| Login.LoginCard.HandleSubmit | app/login/page.tsx:32-97 | the handler leaves exactly the state of `LoginOutcome` |
| Layouts.AccountsFallback | app/accounts/layout.tsx:21-25 | student, teacher, dean and registrar go to their homes, anything else to "/" |
| Layouts.AccountsRedirect | app/accounts/layout.tsx:15-28 | no redirect while loading; signed out to /login; another role to its fallback; none iff loading or an accounts/admin user |
| Layouts.AccountsGuard | app/accounts/layout.tsx:15-42 | children iff signed in as accounts/admin after loading; null iff a redirect is issued; placeholder iff loading |
| Layouts.TeacherRedirect | app/teacher/layout.tsx:16-24 | no redirect while loading; signed out to /login; another role to "/"; none iff loading or a teacher/admin user |
| Layouts.TeacherGuard | app/teacher/layout.tsx:16-44 | children iff signed in as teacher/admin after loading; null iff a redirect is issued; spinner iff loading |
| Layouts.OnlyAdminSeesBoth | app/accounts/layout.tsx:34-42 | only an admin is admitted to both the accounts and the teacher sections |
| Layouts.CapitalisedRoleSentHome | app/accounts/layout.tsx:19-25 | roles are compared exactly: "Teacher" is sent to "/" |
| Layouts.AccountsFallbackAgreesWithLogin | app/accounts/layout.tsx:21-24 | for student, teacher, dean and registrar the guard's redirect equals the login page's route |
| AuthContext.AuthProvider.constructor | context/AuthContext.tsx:14 | the student id starts null |
| AuthContext.AuthProvider.Login | context/AuthContext.tsx:16 | `login(id)` stores id, overwriting any previous one |
| AuthContext.AuthProvider.Logout | context/AuthContext.tsx:17 | `logout()` clears the id |
| AuthContext.UseAuth | context/AuthContext.tsx:26-30 | the context when a provider is present, otherwise "useAuth must be used within AuthProvider" |
| AuthContext.LoginTwiceThenLogoutTwice | context/AuthContext.tsx:14-17 | the last login wins and logout is idempotent |

## Left out

- Database, storage and auth calls: all queries and inserts are network I/O. Their results are inputs: rows, insert errors, the signed-in user and role, and the results of `login`, `signUp` and `getUser`. This covers the pages whose whole content is a fetch.
- The `Promise.all` sibling fetch runs concurrently. It is modelled as one snapshot of the `form_approvals` table, so each sibling list is drawn from the same table.
- TeacherDashboard.TeacherApprovals: the effect's re-runs when `user` changes are not sequenced; the list shown before a run is an input.
- Login.LoginCard.HandleSubmit: the 800 ms `setTimeout` before the push to "/" is recorded as a delayed push, not timed.
- With the auth context as written, `login(email, password)` returns nothing, and destructuring its result would throw. The login model instead takes the auth result as an input.
- PDF rendering and streaming in the receipt endpoint (`renderToStream`, `streamToBuffer`) are left out. These are foreign libraries and the body of the 200 response. Receipt.ReceiptGet takes only whether they reject, as the input `renderFails`.
- `decodeURIComponent` is a parameter; its percent-decoding is not modelled. Receipt.PartWithoutEqualsMapsToEmpty assumes only that it leaves text without '%' unchanged.
- Dates and locale formatting (`toLocaleDateString`) are clock and locale dependent. Timestamps are integers.
- Unicode:
  - `toLowerCase` covers ASCII letters only.
  - `trim` uses the common JavaScript white-space characters.
  - `sort()` is modelled as a strict total order on strings compared character by character, not by UTF-16 code unit.
  - String lengths count characters, not UTF-16 units.
- CSS capitalisation of the approval label is left out: it is styling.
- Markup and pure UI are left out: components/Footer.tsx, components/DeanNav.tsx and components/ClientLayout.tsx.
- Approving or rejecting a step, and the next-approver assignment, happen in pages outside this model. No transitions are invented.
- ProfileCreate.ChangeField: an input name outside the six fields leaves the form unchanged. JavaScript would add an extra key that the page never reads.
- The profile page's department fetch, `handleProgramChange` and the redirect of a signed-out visitor are left out. They are fetches and effects, not guards of `handleSubmit`.
- Receipt.ParseCookies: keys such as `__proto__`, which a JavaScript object literal treats specially, behave as ordinary map keys.
- RegistrarSearch.FilteredSubmissions: rows are assumed to carry a student record and a form name. A null join would throw in the page.
- SubmitCard: drag-and-drop and the click on the hidden input only forward to `handleFiles`. They are not modelled separately.
- Navigation.HeaderEntries: only links and the logout button are modelled, not their styling or the dropdown.
