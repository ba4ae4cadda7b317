/** The registrar's submission search (app/registrar/submissions/page.tsx).
    Rows come newest first (`submitted_at` descending); `submittedAt` stands
    for that timestamp. */
module RegistrarSearch {
  import opened Js
  import opened Seqs

  /** The fields of a joined `form_submissions` row the search looks at. */
  datatype SubmissionRow = SubmissionRow(
    firstName: string,
    lastName: string,
    studentId: string,
    formName: string,
    submissionNumber: Option<string>,
    submittedAt: int)

  /** `sub.submission_number?.toLowerCase().includes(term)`: a null number is
      undefined, which is falsy. */
  predicate NumberMatches(row: SubmissionRow, term: string) {
    row.submissionNumber.Some? && IncludesIgnoringCase(row.submissionNumber.value, term)
  }

  /** The four fields that are always present. */
  predicate NameOrIdMatches(row: SubmissionRow, term: string) {
    IncludesIgnoringCase(row.firstName, term) || IncludesIgnoringCase(row.lastName, term)
    || IncludesIgnoringCase(row.studentId, term) || IncludesIgnoringCase(row.formName, term)
  }

  predicate Matches(row: SubmissionRow, term: string) {
    NameOrIdMatches(row, term) || NumberMatches(row, term)
  }

  /** `filteredSubmissions` */
  function FilteredSubmissions(rows: seq<SubmissionRow>, term: string): (r: seq<SubmissionRow>)
    ensures forall x :: x in r <==> x in rows && Matches(x, term)
    ensures IsSubsequence(r, rows)
  {
    var keep := (x: SubmissionRow) => Matches(x, term);
    FilterIsSubsequence(rows, keep);
    Filter(rows, keep)
  }

  /** A row without a submission number is found only through its other
      fields. */
  lemma MissingNumberMatchesByOtherFields(row: SubmissionRow, term: string)
    requires row.submissionNumber.None?
    ensures Matches(row, term) <==> NameOrIdMatches(row, term)
  {
  }

  /** The empty term keeps every row, numbered or not. */
  lemma EmptyTermKeepsAll(rows: seq<SubmissionRow>)
    ensures FilteredSubmissions(rows, "") == rows
  {
    forall x | x in rows ensures Matches(x, "") {
      EmptyQueryMatches(x.firstName);
    }
    FilterKeepsAll(rows, (x: SubmissionRow) => Matches(x, ""));
  }

  /** A row whose student id contains the term verbatim is found. */
  lemma StudentIdFound(row: SubmissionRow, term: string)
    requires Includes(row.studentId, term)
    ensures Matches(row, term)
  {
    ExactMatchIgnoringCase(row.studentId, term);
  }

  /** Newest first in, newest first out. */
  lemma FilteredNewestFirst(rows: seq<SubmissionRow>, term: string)
    requires SortedBy(rows, (a: SubmissionRow, b: SubmissionRow) => a.submittedAt >= b.submittedAt)
    ensures SortedBy(FilteredSubmissions(rows, term), (a: SubmissionRow, b: SubmissionRow) => a.submittedAt >= b.submittedAt)
  {
    SubsequenceKeepsOrder(FilteredSubmissions(rows, term), rows,
                          (a: SubmissionRow, b: SubmissionRow) => a.submittedAt >= b.submittedAt);
  }
}
