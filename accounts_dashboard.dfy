/** The accounts-receivable approval queue (app/accounts/page.tsx).

    The page queries the pending `accounts_receivable` steps in `created_at`
    order, fetches for each of them every step of the same submission (its
    siblings), and keeps a step only when no sibling with a strictly smaller
    `sequence_order` has a status other than `'approved'`. The queries are
    modelled over one snapshot of the table; a sibling fetch that returns no
    data becomes the empty sibling list, as `siblings || []` makes it. */
module AccountsDashboard {
  import opened Js
  import opened Seqs
  import opened Approvals

  /** A candidate step with the sibling list fetched for it (`all_approvals`). */
  datatype ApprovalWithSiblings = ApprovalWithSiblings(approval: ApprovalRecord, allApprovals: seq<Sibling>)

  /** `.eq('status', 'pending').eq('approval_type', 'accounts_receivable')` */
  predicate IsCandidate(r: ApprovalRecord) {
    r.status == "pending" && r.approvalType == "accounts_receivable"
  }

  /** The rows the first query returns. */
  function Candidates(table: seq<ApprovalRecord>): (r: seq<ApprovalRecord>)
    ensures forall x :: x in r <==> x in table && IsCandidate(x)
    ensures IsSubsequence(r, table)
  {
    FilterIsSubsequence(table, IsCandidate);
    Filter(table, IsCandidate)
  }

  /** The sibling query `.eq('form_submission_id', …)` on the snapshot. */
  function SiblingsIn(table: seq<ApprovalRecord>, submissionId: string): (r: seq<Sibling>)
    ensures |r| <= |table|
    ensures forall s :: s in r <==> exists x :: x in table && x.formSubmissionId == submissionId && ToSibling(x) == s
  {
    if table == [] then []
    else if table[0].formSubmissionId == submissionId then [ToSibling(table[0])] + SiblingsIn(table[1..], submissionId)
    else SiblingsIn(table[1..], submissionId)
  }

  /** `{ ...approval, all_approvals: siblings || [] }` */
  function WithSiblings(approval: ApprovalRecord, fetched: Option<seq<Sibling>>): ApprovalWithSiblings {
    ApprovalWithSiblings(approval, if fetched.Some? then fetched.value else [])
  }

  /** Readiness: every sibling ordered strictly before `order` is approved. */
  predicate PredecessorsApproved(siblings: seq<Sibling>, order: int) {
    forall s :: s in siblings && s.sequenceOrder < order ==> s.status == "approved"
  }

  /** `all_approvals.some(a => a.sequence_order < approval.sequence_order && a.status !== 'approved')` */
  function HasPendingPrecedingApproval(siblings: seq<Sibling>, order: int): (b: bool)
    ensures b <==> exists s :: s in siblings && s.sequenceOrder < order && s.status != "approved"
    ensures b <==> !PredecessorsApproved(siblings, order)
  {
    if siblings == [] then false
    else (siblings[0].sequenceOrder < order && siblings[0].status != "approved")
         || HasPendingPrecedingApproval(siblings[1..], order)
  }

  predicate IsReady(a: ApprovalWithSiblings) {
    !HasPendingPrecedingApproval(a.allApprovals, a.approval.sequenceOrder)
  }

  /** `readyApprovals`: the candidates whose predecessors are all approved,
      in the order they were fetched. */
  function ReadyApprovals(approvals: seq<ApprovalWithSiblings>): (r: seq<ApprovalWithSiblings>)
    ensures forall x :: x in r <==> (x in approvals
                                     && PredecessorsApproved(x.allApprovals, x.approval.sequenceOrder))
    ensures IsSubsequence(r, approvals)
  {
    FilterIsSubsequence(approvals, IsReady);
    Filter(approvals, IsReady)
  }

  /** `approvalsWithCheck`: every candidate paired with its siblings. */
  function AttachSiblings(candidates: seq<ApprovalRecord>, table: seq<ApprovalRecord>): (r: seq<ApprovalWithSiblings>)
    ensures |r| == |candidates|
    ensures forall i :: 0 <= i < |r| ==> (r[i].approval == candidates[i]
                                          && r[i].allApprovals == SiblingsIn(table, candidates[i].formSubmissionId))
  {
    if candidates == [] then []
    else [WithSiblings(candidates[0], Some(SiblingsIn(table, candidates[0].formSubmissionId)))]
         + AttachSiblings(candidates[1..], table)
  }

  /** The approvals the dashboard shows for one snapshot of the table. */
  function AccountsQueue(table: seq<ApprovalRecord>): seq<ApprovalWithSiblings> {
    ReadyApprovals(AttachSiblings(Candidates(table), table))
  }

  /** Whether some step of the same submission, ordered strictly before a,
      is not approved. */
  predicate BlockedInTable(table: seq<ApprovalRecord>, a: ApprovalRecord) {
    exists x :: x in table && x.formSubmissionId == a.formSubmissionId
                && x.sequenceOrder < a.sequenceOrder && x.status != "approved"
  }

  // ------------------------------------------------------------ lemmas

  /** A step whose sibling list holds no step of smaller order is ready,
      whatever the status of the others (its own included). */
  lemma NoSmallerSiblingIsReady(a: ApprovalWithSiblings)
    requires forall s :: s in a.allApprovals ==> s.sequenceOrder >= a.approval.sequenceOrder
    ensures IsReady(a)
  {
  }

  /** Any unapproved predecessor (pending, rejected or anything else) blocks. */
  lemma UnapprovedPredecessorBlocks(a: ApprovalWithSiblings, s: Sibling)
    requires s in a.allApprovals && s.sequenceOrder < a.approval.sequenceOrder
    requires s.status != "approved"
    ensures !IsReady(a)
    ensures a !in ReadyApprovals([a])
  {
  }

  /** Siblings of equal or larger order never affect readiness: adding or
      removing them leaves the verdict unchanged. */
  lemma {:induction false} LaterSiblingsIrrelevant(siblings: seq<Sibling>, later: seq<Sibling>, order: int)
    requires forall s :: s in later ==> s.sequenceOrder >= order
    ensures HasPendingPrecedingApproval(siblings + later, order) == HasPendingPrecedingApproval(siblings, order)
  {
    if siblings == [] {
      assert siblings + later == later;
      LaterSiblingsNeverBlock(later, order);
    } else {
      assert (siblings + later)[1..] == siblings[1..] + later;
      LaterSiblingsIrrelevant(siblings[1..], later, order);
    }
  }

  lemma {:induction false} LaterSiblingsNeverBlock(later: seq<Sibling>, order: int)
    requires forall s :: s in later ==> s.sequenceOrder >= order
    ensures !HasPendingPrecedingApproval(later, order)
  {
    if later != [] {
      assert later[0] in later;
      LaterSiblingsNeverBlock(later[1..], order);
    }
  }

  /** A failed sibling fetch (`siblings` is null) leaves an empty sibling
      list, so the step is shown as ready. */
  lemma FailedSiblingFetchShowsStep(a: ApprovalRecord)
    ensures WithSiblings(a, None) in ReadyApprovals([WithSiblings(a, None)])
  {
    assert WithSiblings(a, None) in [WithSiblings(a, None)];
  }

  /** The entry the dashboard builds for step a of the snapshot. */
  function EntryFor(table: seq<ApprovalRecord>, a: ApprovalRecord): ApprovalWithSiblings {
    WithSiblings(a, Some(SiblingsIn(table, a.formSubmissionId)))
  }

  /** A step of the snapshot is queued iff it is a pending accounts step and
      no step of its submission with smaller order is unapproved. */
  lemma AccountsQueueMembership(table: seq<ApprovalRecord>, a: ApprovalRecord)
    ensures EntryFor(table, a) in AccountsQueue(table)
            <==> a in table && IsCandidate(a) && !BlockedInTable(table, a)
  {
    var cands := Candidates(table);
    var attached := AttachSiblings(cands, table);
    PredecessorsInTable(table, a);
    if a in table && IsCandidate(a) {
      var i :| 0 <= i < |cands| && cands[i] == a;
      assert attached[i] == EntryFor(table, a);
    }
    if EntryFor(table, a) in attached {
      var i :| 0 <= i < |attached| && attached[i] == EntryFor(table, a);
      assert cands[i] in cands;
    }
  }

  /** Every queued entry is the entry of a pending accounts step of the
      snapshot, paired with all the steps of its submission. */
  lemma QueuedEntryShape(table: seq<ApprovalRecord>, y: ApprovalWithSiblings)
    requires y in AccountsQueue(table)
    ensures y == EntryFor(table, y.approval)
    ensures y.approval in table && IsCandidate(y.approval) && !BlockedInTable(table, y.approval)
  {
    var cands := Candidates(table);
    var attached := AttachSiblings(cands, table);
    var i :| 0 <= i < |attached| && attached[i] == y;
    assert cands[i] in cands;
    AccountsQueueMembership(table, y.approval);
  }

  /** Readiness computed from the fetched siblings agrees with the table. */
  lemma PredecessorsInTable(table: seq<ApprovalRecord>, a: ApprovalRecord)
    ensures PredecessorsApproved(SiblingsIn(table, a.formSubmissionId), a.sequenceOrder)
            <==> !BlockedInTable(table, a)
  {
    var sibs := SiblingsIn(table, a.formSubmissionId);
    if BlockedInTable(table, a) {
      var x :| x in table && x.formSubmissionId == a.formSubmissionId
               && x.sequenceOrder < a.sequenceOrder && x.status != "approved";
      assert ToSibling(x) in sibs;
    }
  }

  /** When the table is listed in `created_at` order, so is the queue. */
  lemma AccountsQueueInCreatedOrder(table: seq<ApprovalRecord>)
    requires SortedBy(table, CreatedNoLater)
    ensures SortedBy(AccountsQueue(table), (x: ApprovalWithSiblings, y: ApprovalWithSiblings) => x.approval.createdAt <= y.approval.createdAt)
  {
    var before := (x: ApprovalWithSiblings, y: ApprovalWithSiblings) => x.approval.createdAt <= y.approval.createdAt;
    var cands := Candidates(table);
    SubsequenceKeepsOrder(cands, table, CreatedNoLater);
    var attached := AttachSiblings(cands, table);
    assert SortedBy(attached, before);
    SubsequenceKeepsOrder(AccountsQueue(table), attached, before);
  }

  /** When no two steps of a submission share a `sequence_order`, the queue
      holds at most one step per submission. */
  lemma AtMostOneStepPerSubmission(table: seq<ApprovalRecord>, x: ApprovalWithSiblings, y: ApprovalWithSiblings)
    requires forall p, q :: p in table && q in table && p != q && p.formSubmissionId == q.formSubmissionId
                            ==> p.sequenceOrder != q.sequenceOrder
    requires x in AccountsQueue(table) && y in AccountsQueue(table)
    requires x.approval.formSubmissionId == y.approval.formSubmissionId
    ensures x.approval == y.approval
  {
    QueuedEntryShape(table, x);
    QueuedEntryShape(table, y);
  }

  /** With two pending steps of equal order the queue shows both: duplicate
      orders are not detected. */
  lemma EqualOrdersBothQueued()
    ensures var a := ApprovalRecord("a1", "accounts_receivable", "pending", None, 1, 2, "s1");
            var b := ApprovalRecord("a2", "accounts_receivable", "pending", None, 2, 2, "s1");
            |AccountsQueue([a, b])| == 2
  {
    var a := ApprovalRecord("a1", "accounts_receivable", "pending", None, 1, 2, "s1");
    var b := ApprovalRecord("a2", "accounts_receivable", "pending", None, 2, 2, "s1");
    var table := [a, b];
    assert table[1..] == [b] && [b][1..] == [];
    assert Filter([b], IsCandidate) == [b] + Filter([], IsCandidate);
    assert Candidates(table) == table;
    assert SiblingsIn([b], "s1") == [ToSibling(b)] + SiblingsIn([], "s1");
    var sibs := SiblingsIn(table, "s1");
    assert sibs == [ToSibling(a), ToSibling(b)];
    var attached := AttachSiblings(table, table);
    assert attached == [WithSiblings(a, Some(sibs)), WithSiblings(b, Some(sibs))];
    assert ReadyApprovals(attached) == attached;
  }
}
