/** A student's submission history (app/history/page.tsx): the
    normalisation of the `form_types` join, the status label, and the
    search and status filters. `submittedAt` stands for the `submitted_at`
    timestamp; the query returns the rows newest first. */
module History {
  import opened Js
  import opened Seqs

  /** The `form_types (name)` record. */
  datatype FormType = FormType(name: Option<string>)

  /** The join as fetched: absent, an object, or an array whose entries may
      be null. */
  datatype FormTypesJoin = TypesMissing | TypesObject(formType: FormType) | TypesArray(items: seq<Option<FormType>>)

  datatype SubmissionRow = SubmissionRow(
    id: string,
    submissionNumber: Option<string>,
    status: string,
    submittedAt: int,
    formTypes: FormTypesJoin)

  datatype Submission = Submission(
    id: string,
    submissionNumber: Option<string>,
    status: string,
    submittedAt: int,
    formTypes: Option<FormType>)

  /** `Array.isArray(t) ? t[0] ?? null : t ?? null` */
  function NormalizeFormTypes(t: FormTypesJoin): (r: Option<FormType>)
    ensures t.TypesMissing? ==> r.None?
    ensures t.TypesObject? ==> r == Some(t.formType)
    ensures t.TypesArray? ==> r == (if t.items == [] then None else t.items[0])
  {
    match t
    case TypesMissing => None
    case TypesObject(f) => Some(f)
    case TypesArray(items) => if items == [] then None else items[0]
  }

  /** `{ ...sub, form_types: … }`: only the join changes. */
  function Normalize(row: SubmissionRow): (r: Submission)
    ensures r.id == row.id && r.submissionNumber == row.submissionNumber
    ensures r.status == row.status && r.submittedAt == row.submittedAt
    ensures r.formTypes == NormalizeFormTypes(row.formTypes)
  {
    Submission(row.id, row.submissionNumber, row.status, row.submittedAt, NormalizeFormTypes(row.formTypes))
  }

  /** `typedData.map(…)` */
  function NormalizeAll(rows: seq<SubmissionRow>): (r: seq<Submission>)
    ensures |r| == |rows|
    ensures forall i :: 0 <= i < |rows| ==> r[i] == Normalize(rows[i])
  {
    seq(|rows|, i requires 0 <= i < |rows| => Normalize(rows[i]))
  }

  // ------------------------------------------------------------ status

  const Completed := "Completed"
  const Rejected := "Rejected"
  const InProgress := "In Progress"
  const AllStatus := "All Status"

  /** The label of `getStatusDisplay`. */
  function StatusLabel(status: string): (r: string)
    ensures status == "approved" <==> r == Completed
    ensures status == "rejected" <==> r == Rejected
    ensures r == Completed || r == Rejected || r == InProgress
  {
    if status == "approved" then Completed
    else if status == "rejected" then Rejected
    else InProgress
  }

  // ------------------------------------------------------------ filter

  /** `(s || "")`: null and "" both search as "". */
  function OrEmpty(s: Option<string>): string {
    if s.Some? then s.value else ""
  }

  /** The name of the form type, or "" when there is none. */
  function FormName(sub: Submission): string {
    if sub.formTypes.Some? then OrEmpty(sub.formTypes.value.name) else ""
  }

  predicate MatchesSearch(sub: Submission, query: string) {
    IncludesIgnoringCase(FormName(sub), query) || IncludesIgnoringCase(OrEmpty(sub.submissionNumber), query)
  }

  predicate MatchesStatus(sub: Submission, statusFilter: string) {
    statusFilter == AllStatus || StatusLabel(sub.status) == statusFilter
  }

  /** `filteredSubmissions` */
  function FilteredSubmissions(subs: seq<Submission>, query: string, statusFilter: string): (r: seq<Submission>)
    ensures forall s :: s in r <==> s in subs && MatchesSearch(s, query) && MatchesStatus(s, statusFilter)
    ensures IsSubsequence(r, subs)
  {
    var keep := (s: Submission) => MatchesSearch(s, query) && MatchesStatus(s, statusFilter);
    FilterIsSubsequence(subs, keep);
    Filter(subs, keep)
  }

  // ------------------------------------------------------------ lemmas

  /** The empty query with "All Status" shows every submission. */
  lemma NoFilterKeepsAll(subs: seq<Submission>)
    ensures FilteredSubmissions(subs, "", AllStatus) == subs
  {
    forall s | s in subs ensures MatchesSearch(s, "") {
      EmptyQueryMatches(FormName(s));
    }
    FilterKeepsAll(subs, (s: Submission) => MatchesSearch(s, "") && MatchesStatus(s, AllStatus));
  }

  /** A status filter other than the three labels and "All Status" shows
      nothing. */
  lemma UnknownStatusFilterKeepsNone(subs: seq<Submission>, query: string, statusFilter: string)
    requires statusFilter != AllStatus && statusFilter != Completed
    requires statusFilter != Rejected && statusFilter != InProgress
    ensures FilteredSubmissions(subs, query, statusFilter) == []
  {
    FilterKeepsNone(subs, (s: Submission) => MatchesSearch(s, query) && MatchesStatus(s, statusFilter));
  }

  /** The search ignores the case of the query. */
  lemma SearchIgnoresQueryCase(sub: Submission, query: string)
    ensures MatchesSearch(sub, ToLower(query)) == MatchesSearch(sub, query)
  {
    QueryCaseIrrelevant(FormName(sub), query);
    QueryCaseIrrelevant(OrEmpty(sub.submissionNumber), query);
  }

  /** A submission whose form name contains the query verbatim is found. */
  lemma ExactNameFound(sub: Submission, query: string)
    requires Includes(FormName(sub), query)
    ensures MatchesSearch(sub, query)
  {
    ExactMatchIgnoringCase(FormName(sub), query);
  }

  /** Newest first in, newest first out. */
  lemma FilteredNewestFirst(subs: seq<Submission>, query: string, statusFilter: string)
    requires SortedBy(subs, (a: Submission, b: Submission) => a.submittedAt >= b.submittedAt)
    ensures SortedBy(FilteredSubmissions(subs, query, statusFilter), (a: Submission, b: Submission) => a.submittedAt >= b.submittedAt)
  {
    SubsequenceKeepsOrder(FilteredSubmissions(subs, query, statusFilter), subs,
                          (a: Submission, b: Submission) => a.submittedAt >= b.submittedAt);
  }
}
