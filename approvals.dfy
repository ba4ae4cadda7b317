/** The `form_approvals` table as the approver dashboards see it: one row per
    approval step of a form submission, already fetched. `createdAt` stands
    for the `created_at` timestamp, by which the dashboards order their
    queues. */
module Approvals {
  import opened Js

  datatype ApprovalRecord = ApprovalRecord(
    id: string,
    approvalType: string,
    status: string,
    staffId: Option<string>,
    createdAt: int,
    sequenceOrder: int,
    formSubmissionId: string)

  /** The `id, status, sequence_order` projection the accounts dashboard
      fetches for every step of a submission. */
  datatype Sibling = Sibling(id: string, status: string, sequenceOrder: int)

  function ToSibling(r: ApprovalRecord): Sibling {
    Sibling(r.id, r.status, r.sequenceOrder)
  }

  /** `.order('created_at', { ascending: true })` */
  predicate CreatedNoLater(a: ApprovalRecord, b: ApprovalRecord) {
    a.createdAt <= b.createdAt
  }

  /** The nested `students` record of a joined submission. */
  datatype Student = Student(firstName: string, lastName: string, studentId: string)

  /** The `form_submissions` record joined onto an approval, with its
      `students` and `form_types (name)` joins. */
  datatype SubmissionSummary = SubmissionSummary(
    id: string,
    submissionNumber: string,
    submittedAt: string,
    students: Student,
    formTypeName: string)
}
