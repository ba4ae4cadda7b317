/** The student-profile form (app/profile/create/page.tsx): its field
    updates, the guard chain of `handleSubmit`, the rows it inserts and the
    state it leaves behind. The signed-in user and the two insert results
    are inputs; the department list and the redirect of a signed-out visitor
    are not part of this model. */
module ProfileCreate {
  import opened Js

  /** The `formData` record; every field starts as "". */
  datatype ProfileForm = ProfileForm(
    studentId: string,
    firstName: string,
    lastName: string,
    phone: string,
    programCode: string,
    programName: string)

  const EmptyForm := ProfileForm("", "", "", "", "", "")

  /** The input names of the form's fields. */
  const FieldNames: seq<string> := ["student_id", "first_name", "last_name", "phone", "program_code", "program_name"]

  /** The value of the field an input name refers to. */
  function FieldValue(form: ProfileForm, name: string): Option<string> {
    if name == "student_id" then Some(form.studentId)
    else if name == "first_name" then Some(form.firstName)
    else if name == "last_name" then Some(form.lastName)
    else if name == "phone" then Some(form.phone)
    else if name == "program_code" then Some(form.programCode)
    else if name == "program_name" then Some(form.programName)
    else None
  }

  /** `setFormData(prev => ({ ...prev, [name]: value }))` on the six fields:
      the named field takes the value and every other field keeps its own. */
  function ChangeField(form: ProfileForm, name: string, value: string): (r: ProfileForm)
    ensures name in FieldNames ==> FieldValue(r, name) == Some(value)
    ensures forall n :: n in FieldNames && n != name ==> FieldValue(r, n) == FieldValue(form, n)
    ensures name !in FieldNames ==> r == form
  {
    if name == "student_id" then form.(studentId := value)
    else if name == "first_name" then form.(firstName := value)
    else if name == "last_name" then form.(lastName := value)
    else if name == "phone" then form.(phone := value)
    else if name == "program_code" then form.(programCode := value)
    else if name == "program_name" then form.(programName := value)
    else form
  }

  /** Changing a field twice keeps only the second value. */
  lemma ChangeFieldLastWins(form: ProfileForm, name: string, v1: string, v2: string)
    ensures ChangeField(ChangeField(form, name, v1), name, v2) == ChangeField(form, name, v2)
  {
  }

  // ------------------------------------------------------- validation

  const NotLoggedIn := "You must be logged in to create a profile."
  const RequiredFields := "Please fill in all required fields."
  const DigitsOnly := "Student ID must contain only numbers."
  const TenDigits := "Student ID must be exactly 10 digits."
  const CreateFailed := "Failed to create profile. Please try again."

  /** The guard chain of `handleSubmit`: the first failing check names the
      error, and `None` means every check passed. */
  function ValidationError(user: Option<string>, form: ProfileForm): (r: Option<string>)
    ensures user.None? ==> r == Some(NotLoggedIn)
    ensures user.Some? && (form.studentId == "" || form.firstName == "" || form.lastName == "")
            ==> r == Some(RequiredFields)
    ensures (user.Some? && form.studentId != "" && form.firstName != "" && form.lastName != ""
             && !AllDigits(form.studentId))
            ==> r == Some(DigitsOnly)
    ensures (user.Some? && form.firstName != "" && form.lastName != ""
             && AllDigits(form.studentId) && |form.studentId| != 10)
            ==> r == Some(TenDigits)
    ensures r.None? <==> (user.Some? && form.firstName != "" && form.lastName != ""
                          && AllDigits(form.studentId) && |form.studentId| == 10)
  {
    if user.None? then Some(NotLoggedIn)
    else if form.studentId == "" || form.firstName == "" || form.lastName == "" then Some(RequiredFields)
    else if !AllDigits(form.studentId) then Some(DigitsOnly)
    else if |form.studentId| != 10 then Some(TenDigits)
    else None
  }

  /** A student id the chain accepts is ten ASCII digits. */
  lemma AcceptedStudentIdIsTenDigits(user: Option<string>, form: ProfileForm)
    requires ValidationError(user, form).None?
    ensures |form.studentId| == 10
    ensures forall i :: 0 <= i < 10 ==> '0' <= form.studentId[i] <= '9'
  {
  }

  // ---------------------------------------------------------- records

  /** An error the database returns for an insert. */
  datatype DbError = DbError(code: string, message: string)

  /** The unique-violation code, which the profile insert tolerates. */
  const UniqueViolation := "23505"

  /** The `students` row `handleSubmit` inserts. */
  datatype StudentRow = StudentRow(
    id: string,
    studentId: string,
    firstName: string,
    lastName: string,
    phone: Option<string>,
    programCode: Option<string>,
    programName: Option<string>,
    enrollmentStatus: string)

  /** The writes `handleSubmit` makes, in order. */
  datatype DbWrite =
    | ProfileInsert(id: string, role: string)
    | StudentInsert(row: StudentRow)

  /** `s || null` */
  function OrNull(s: string): (r: Option<string>)
    ensures r.None? <==> s == ""
    ensures r.Some? ==> r.value == s
  {
    if s == "" then None else Some(s)
  }

  /** The student row for user `userId`: the optional fields become null when
      empty and the enrollment status is always 'active'. */
  function StudentRecord(userId: string, form: ProfileForm): (r: StudentRow)
    ensures r.id == userId && r.studentId == form.studentId
    ensures r.firstName == form.firstName && r.lastName == form.lastName
    ensures r.phone == OrNull(form.phone) && r.programCode == OrNull(form.programCode)
            && r.programName == OrNull(form.programName)
    ensures r.enrollmentStatus == "active"
  {
    StudentRow(userId, form.studentId, form.firstName, form.lastName,
               OrNull(form.phone), OrNull(form.programCode), OrNull(form.programName), "active")
  }

  /** Whether the profile insert's error aborts the submission. */
  predicate ProfileInsertFails(profileError: Option<DbError>) {
    profileError.Some? && profileError.value.code != UniqueViolation
  }

  /** `err.message || 'Failed to create profile. Please try again.'` */
  function ThrownMessage(e: DbError): (r: string)
    ensures r != ""
    ensures e.message != "" ==> r == e.message
  {
    if e.message != "" then e.message else CreateFailed
  }

  /** The state `handleSubmit` leaves behind and the writes it made. */
  datatype Outcome = Outcome(error: string, submitting: bool, pushed: Option<string>, writes: seq<DbWrite>)

  /** What `handleSubmit` does, given the user, the form and the results the
      two inserts would return. */
  function SubmitOutcome(user: Option<string>, form: ProfileForm, profileError: Option<DbError>, studentError: Option<DbError>): Outcome {
    match ValidationError(user, form)
    case Some(msg) => Outcome(msg, false, None, [])
    case None =>
      var profile := ProfileInsert(user.value, "student");
      if ProfileInsertFails(profileError) then
        Outcome(ThrownMessage(profileError.value), false, None, [profile])
      else
        var student := StudentInsert(StudentRecord(user.value, form));
        if studentError.Some? then Outcome(ThrownMessage(studentError.value), false, None, [profile, student])
        else Outcome("", true, Some("/"), [profile, student])
  }

  // ------------------------------------------------------------ lemmas

  /** The page moves on to "/" iff every check passes and neither insert
      fails (a unique violation on the profile counts as success); only then
      does `submitting` stay set and the error stay empty. */
  lemma SubmitSucceedsIff(user: Option<string>, form: ProfileForm, profileError: Option<DbError>, studentError: Option<DbError>)
    ensures var o := SubmitOutcome(user, form, profileError, studentError);
            (o.pushed == Some("/")
             <==> ValidationError(user, form).None? && !ProfileInsertFails(profileError) && studentError.None?)
            && (o.pushed.Some? <==> o.submitting)
            && (o.pushed.Some? <==> o.error == "")
  {
  }

  /** Nothing is written unless every check passes, and the student row is
      written only after the profile insert succeeded or hit an existing
      profile. */
  lemma WritesFollowChecks(user: Option<string>, form: ProfileForm, profileError: Option<DbError>, studentError: Option<DbError>)
    ensures var o := SubmitOutcome(user, form, profileError, studentError);
            (o.writes != [] <==> ValidationError(user, form).None?)
            && (|o.writes| == 2 <==> ValidationError(user, form).None? && !ProfileInsertFails(profileError))
            && (o.writes != [] ==> o.writes[0] == ProfileInsert(user.value, "student"))
            && (|o.writes| == 2 ==> o.writes[1] == StudentInsert(StudentRecord(user.value, form)))
  {
  }

  /** An existing profile (unique violation) is treated like a fresh one. */
  lemma UniqueViolationTolerated(user: Option<string>, form: ProfileForm, message: string, studentError: Option<DbError>)
    ensures SubmitOutcome(user, form, Some(DbError(UniqueViolation, message)), studentError)
            == SubmitOutcome(user, form, None, studentError)
  {
  }

  /** Without a user the error is the login message, whatever the form holds. */
  lemma NoUserStopsFirst(form: ProfileForm, profileError: Option<DbError>, studentError: Option<DbError>)
    ensures SubmitOutcome(None, form, profileError, studentError) == Outcome(NotLoggedIn, false, None, [])
  {
  }

  // -------------------------------------------------------------- page

  /** The page's state: the form, the error text, the `submitting` flag and
      the last route handed to `router.push`. */
  class CreateProfilePage {
    var formData: ProfileForm
    var error: string
    var submitting: bool
    var pushed: Option<string>

    constructor()
      ensures formData == EmptyForm && error == "" && !submitting && pushed == None
    {
      formData := EmptyForm;
      error := "";
      submitting := false;
      pushed := None;
    }

    /** `handleChange` */
    method HandleChange(name: string, value: string)
      modifies this
      ensures formData == ChangeField(old(formData), name, value)
      ensures error == old(error) && submitting == old(submitting) && pushed == old(pushed)
    {
      formData := ChangeField(formData, name, value);
    }

    /** `handleSubmit`: clears the error, sets `submitting`, and returns early
        at the first failing check or failing insert. */
    method HandleSubmit(user: Option<string>, profileError: Option<DbError>, studentError: Option<DbError>)
      returns (writes: seq<DbWrite>)
      modifies this
      ensures var o := SubmitOutcome(user, old(formData), profileError, studentError);
              error == o.error && submitting == o.submitting && writes == o.writes
              && pushed == (if o.pushed.Some? then o.pushed else old(pushed))
      ensures formData == old(formData)
    {
      writes := [];
      error := "";
      submitting := true;

      if user.None? {
        error := NotLoggedIn;
        submitting := false;
        return;
      }
      if formData.studentId == "" || formData.firstName == "" || formData.lastName == "" {
        error := RequiredFields;
        submitting := false;
        return;
      }
      if !AllDigits(formData.studentId) {
        error := DigitsOnly;
        submitting := false;
        return;
      }
      if |formData.studentId| != 10 {
        error := TenDigits;
        submitting := false;
        return;
      }

      writes := writes + [ProfileInsert(user.value, "student")];
      if profileError.Some? && profileError.value.code != UniqueViolation {
        error := ThrownMessage(profileError.value);
        submitting := false;
        return;
      }

      var row := StudentRecord(user.value, formData);
      writes := writes + [StudentInsert(row)];
      if studentError.Some? {
        error := ThrownMessage(studentError.value);
        submitting := false;
        return;
      }

      pushed := Some("/");
    }
  }
}
