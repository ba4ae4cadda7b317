/** The teacher's pending-approval list (app/teacher/page.tsx).

    The page asks for the steps that are pending and assigned to the current
    user, in `created_at` order, and normalises the joined submission of each
    with `mapApproval`. Unlike the accounts dashboard it does not look at the
    other steps of the submission at all. */
module TeacherDashboard {
  import opened Js
  import opened Seqs
  import opened Approvals
  import AccountsDashboard

  /** `.eq("status", "pending").eq("staff_id", user.id)` */
  predicate InTeacherQueue(r: ApprovalRecord, userId: string) {
    r.status == "pending" && r.staffId == Some(userId)
  }

  /** The rows the teacher query returns for one snapshot of the table. */
  function TeacherQueue(table: seq<ApprovalRecord>, userId: string): (r: seq<ApprovalRecord>)
    ensures forall x :: x in r <==> x in table && x.status == "pending" && x.staffId == Some(userId)
    ensures IsSubsequence(r, table)
  {
    FilterIsSubsequence(table, (x: ApprovalRecord) => InTeacherQueue(x, userId));
    Filter(table, (x: ApprovalRecord) => InTeacherQueue(x, userId))
  }

  /** The teacher queue keeps the `created_at` order of the table. */
  lemma TeacherQueueInCreatedOrder(table: seq<ApprovalRecord>, userId: string)
    requires SortedBy(table, CreatedNoLater)
    ensures SortedBy(TeacherQueue(table, userId), CreatedNoLater)
  {
    SubsequenceKeepsOrder(TeacherQueue(table, userId), table, CreatedNoLater);
  }

  /** A pending step assigned to the teacher is listed even when an earlier
      step of the same submission is not approved, which is exactly when the
      accounts dashboard's readiness rule would hide it. */
  lemma TeacherQueueIgnoresPredecessors(table: seq<ApprovalRecord>, r: ApprovalRecord, p: ApprovalRecord, userId: string)
    requires r in table && p in table
    requires r.status == "pending" && r.staffId == Some(userId)
    requires p.formSubmissionId == r.formSubmissionId && p.sequenceOrder < r.sequenceOrder
    requires p.status != "approved"
    ensures r in TeacherQueue(table, userId)
    ensures !AccountsDashboard.PredecessorsApproved(AccountsDashboard.SiblingsIn(table, r.formSubmissionId), r.sequenceOrder)
  {
    AccountsDashboard.PredecessorsInTable(table, r);
  }

  // ------------------------------------------------------- mapApproval

  /** The `form_submissions` join as the client receives it: absent (null or
      undefined), a single object, or an array whose entries may be null. */
  datatype SubmissionJoin =
    | JoinMissing
    | JoinObject(submission: SubmissionSummary)
    | JoinArray(items: seq<Option<SubmissionSummary>>)

  datatype ApprovalJoinRow = ApprovalJoinRow(
    id: string,
    approvalType: string,
    createdAt: int,
    formSubmissions: SubmissionJoin)

  /** The `ApprovalRequest` record the page renders. */
  datatype ApprovalRequest = ApprovalRequest(
    id: string,
    approvalType: string,
    createdAt: int,
    formSubmissions: SubmissionSummary)

  const MissingSubmission: string := "Missing submission data for approval"

  /** `mapApproval`: an array join uses its first element, an object join is
      used as it is, and a missing submission throws. */
  function MapApproval(row: ApprovalJoinRow): (r: Result<ApprovalRequest, string>)
    ensures row.formSubmissions.JoinObject?
            ==> r == Ok(ApprovalRequest(row.id, row.approvalType, row.createdAt, row.formSubmissions.submission))
    ensures row.formSubmissions.JoinArray? && |row.formSubmissions.items| > 0 && row.formSubmissions.items[0].Some?
            ==> r == Ok(ApprovalRequest(row.id, row.approvalType, row.createdAt, row.formSubmissions.items[0].value))
    ensures r.Err? <==> (row.formSubmissions.JoinMissing?
                         || (row.formSubmissions.JoinArray?
                             && (row.formSubmissions.items == [] || row.formSubmissions.items[0].None?)))
    ensures r.Err? ==> r.error == MissingSubmission
  {
    var submission :=
      match row.formSubmissions
      case JoinMissing => None
      case JoinObject(s) => Some(s)
      case JoinArray(items) => if |items| > 0 then items[0] else None;
    if submission.None? then Err(MissingSubmission)
    else Ok(ApprovalRequest(row.id, row.approvalType, row.createdAt, submission.value))
  }

  /** `(data || []).map(mapApproval)`: the first throw aborts the whole map. */
  function MapAll(rows: seq<ApprovalJoinRow>): (r: Result<seq<ApprovalRequest>, string>)
    ensures r.Ok? <==> forall i :: 0 <= i < |rows| ==> MapApproval(rows[i]).Ok?
    ensures r.Ok? ==> |r.value| == |rows|
                      && forall i :: 0 <= i < |rows| ==> r.value[i] == MapApproval(rows[i]).value
    ensures r.Err? ==> r.error == MissingSubmission
  {
    if rows == [] then Ok([])
    else match MapApproval(rows[0])
      case Err(e) => Err(e)
      case Ok(a) =>
        match MapAll(rows[1..])
        case Err(e) => Err(e)
        case Ok(rest) =>
          assert forall i :: 1 <= i < |rows| ==> rows[i] == rows[1..][i - 1];
          Ok([a] + rest)
  }

  /** What the page shows after one run of the fetch effect: the mapped
      list, or, when a row throws, the list it showed before (`previous`,
      the initial `[]` on the first run), because the error is only logged
      and `setApprovals` is not reached. */
  function TeacherApprovals(previous: seq<ApprovalRequest>, rows: seq<ApprovalJoinRow>): (r: seq<ApprovalRequest>)
    ensures (exists i :: 0 <= i < |rows| && MapApproval(rows[i]).Err?) ==> r == previous
    ensures (forall i :: 0 <= i < |rows| ==> MapApproval(rows[i]).Ok?)
            ==> |r| == |rows| && forall i :: 0 <= i < |rows| ==> r[i] == MapApproval(rows[i]).value
  {
    match MapAll(rows)
    case Ok(v) => v
    case Err(_) => previous
  }

  // ----------------------------------------------------- type label

  /** `{approval.approval_type.replace("_", " ")} Approval` (the CSS
      `capitalize` is presentation and not modelled). */
  function ApprovalTypeLabel(approvalType: string): (r: string)
    ensures EndsWith(r, " Approval") && |r| == |approvalType| + 9
    ensures '_' !in approvalType ==> r == approvalType + " Approval"
  {
    ReplaceFirst(approvalType, '_', ' ') + " Approval"
  }

  /** Only the first underscore is replaced; a later one stays. */
  lemma LabelKeepsLaterUnderscores(approvalType: string, j: nat)
    requires j < |approvalType| && approvalType[j] == '_' && '_' in approvalType[..j]
    ensures ApprovalTypeLabel(approvalType)[j] == '_'
    ensures ApprovalTypeLabel(approvalType)[FirstIndex(approvalType, '_')] == ' '
  {
    ReplaceFirstKeepsLater(approvalType, '_', ' ', j);
  }

  /** For a type `p_q` whose first underscore ends p, the label is `p q Approval`
      (so `accounts_receivable` reads "accounts receivable Approval"). */
  lemma LabelOfUnderscoredType(p: string, q: string)
    requires '_' !in p
    ensures ApprovalTypeLabel(p + "_" + q) == p + " " + q + " Approval"
  {
    var t := p + "_" + q;
    assert t[..|p|] == p && t[|p|] == '_';
    assert FirstIndex(t, '_') == |p|;
    assert t[|p| + 1..] == q;
  }
}
