/** The static table of downloadable forms (lib/forms.ts). */
module FormsConfig {
  import opened Js

  datatype FormConfig = FormConfig(
    id: string,
    title: string,
    description: string,
    dueDate: string,
    downloadUrl: string,
    fileName: string)

  /** `formsConfig`, entry by entry. */
  const Forms: seq<FormConfig> := [
    FormConfig("transcript", "Transcript Request Form", "Request official transcripts",
               "Rolling", "/forms/transcript-request.pdf", "transcript_request.pdf"),
    FormConfig("program-completion", "Application for Program Completion", "Finalize your records before graduation.",
               "September 30, 2025", "/forms/program-completion.pdf", "program_completion.pdf"),
    FormConfig("deferred-exam", "Deferred Exam Application", "Apply to defer a final exam",
               "December 4, 2025", "/forms/deferred-exam.pdf", "deferred_exam.pdf"),
    FormConfig("program-change", "Program Change Form", "Request to change your major or minor",
               "November 28, 2025", "/forms/program-change.pdf", "program_change.pdf"),
    FormConfig("som-application", "UB SoM Application", "UB School of Medicine application form",
               "May 29, 2026", "/forms/som-application.pdf", "som_application.pdf"),
    FormConfig("undergrad-application", "Undergrad Application", "Undergraduate admission application",
               "May 29, 2026", "/forms/undergrad-application.pdf", "undergrad_application.pdf"),
    FormConfig("withdrawal", "Withdrawal Form", "Withdraw from courses or university",
               "October 31, 2025", "/forms/withdrawal-form.pdf", "withdrawal_form.pdf"),
    FormConfig("withdrawal-late", "Late Withdrawal Form", "Request for late withdrawal from courses",
               "November 14, 2025", "/forms/withdrawal-late.pdf", "withdrawal_late.pdf")
  ]

  /** Every entry's download lives under /forms/ and is a PDF, and so is the
      file name it is saved under. */
  predicate WellFormedEntry(f: FormConfig) {
    StartsWith(f.downloadUrl, "/forms/") && EndsWith(f.downloadUrl, ".pdf") && EndsWith(f.fileName, ".pdf")
  }

  /** The table has eight entries, the first (the submit page's fallback) is
      the transcript request, and no two entries share an id. */
  lemma TableShape()
    ensures |Forms| == 8 && Forms[0].id == "transcript"
    ensures forall i, j :: 0 <= i < j < |Forms| ==> Forms[i].id != Forms[j].id
  {
  }

  /** Every download URL lies under "/forms/". */
  lemma UrlsUnderForms()
    ensures forall i :: 0 <= i < |Forms| ==> StartsWith(Forms[i].downloadUrl, "/forms/")
  {
  }

  /** Every download URL names a PDF. */
  lemma UrlsArePdf()
    ensures forall i :: 0 <= i < |Forms| ==> EndsWith(Forms[i].downloadUrl, ".pdf")
  {
  }

  /** Every file name names a PDF. */
  lemma FileNamesArePdf()
    ensures forall i :: 0 <= i < |Forms| ==> EndsWith(Forms[i].fileName, ".pdf")
  {
  }

  /** Every entry is well formed. */
  lemma EntriesWellFormed()
    ensures forall i :: 0 <= i < |Forms| ==> WellFormedEntry(Forms[i])
  {
    UrlsUnderForms();
    UrlsArePdf();
    FileNamesArePdf();
  }
}
