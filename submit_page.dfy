/** Which form the submit page shows (app/submit/page.tsx): the `form`
    search parameter, resolved against the form table with the first entry
    as fallback. */
module SubmitPage {
  import opened Js
  import opened FormsConfig

  /** The `form` search parameter: absent, given once, or given several
      times (an array). */
  datatype FormParam = Absent | Single(id: string) | Several(ids: seq<string>)

  /** `notFound()` was called. */
  datatype NotFound = NotFound

  /** `Array.isArray(p) ? p[0] : p`; the first element of an empty array is
      undefined. */
  function SelectedFormId(param: FormParam): (r: Option<string>)
    ensures param.Absent? ==> r.None?
    ensures param.Single? ==> r == Some(param.id)
    ensures param.Several? ==> (r.Some? <==> param.ids != []) && (r.Some? ==> r.value == param.ids[0])
  {
    match param
    case Absent => None
    case Single(id) => Some(id)
    case Several(ids) => if ids == [] then None else Some(ids[0])
  }

  /** `forms.find(form => form.id === id)`: the first entry with that id. */
  function FindById(forms: seq<FormConfig>, id: string): (r: Option<FormConfig>)
    ensures r.None? <==> forall i :: 0 <= i < |forms| ==> forms[i].id != id
    ensures r.Some? ==> exists i :: 0 <= i < |forms| && forms[i] == r.value && r.value.id == id
                                    && forall j :: 0 <= j < i ==> forms[j].id != id
  {
    if forms == [] then None
    else if forms[0].id == id then Some(forms[0])
    else
      var r := FindById(forms[1..], id);
      assert r.Some? ==> exists i :: 0 <= i < |forms| && forms[i] == r.value && r.value.id == id
                                     && forall j :: 0 <= j < i ==> forms[j].id != id by {
        if r.Some? {
          var i :| 0 <= i < |forms[1..]| && forms[1..][i] == r.value && r.value.id == id
                   && forall j :: 0 <= j < i ==> forms[1..][j].id != id;
          assert forms[i + 1] == r.value;
          forall j | 0 <= j < i + 1 ensures forms[j].id != id {
            if j > 0 { assert forms[j] == forms[1..][j - 1]; }
          }
        }
      }
      assert r.None? ==> forall i :: 0 <= i < |forms| ==> forms[i].id != id by {
        if r.None? {
          forall i | 0 <= i < |forms| ensures forms[i].id != id {
            if i > 0 { assert forms[i] == forms[1..][i - 1]; }
          }
        }
      }
      r
  }

  /** The form the page renders, or `notFound()` when the table is empty. */
  function ResolveForm(forms: seq<FormConfig>, param: FormParam): (r: Result<FormConfig, NotFound>)
    ensures r.Err? <==> forms == []
    ensures r.Ok? ==> r.value in forms
  {
    if forms == [] then Err(NotFound)
    else
      var fallback := forms[0];
      var id := SelectedFormId(param);
      if id.Some? && id.value != "" then
        var found := FindById(forms, id.value);
        Ok(if found.Some? then found.value else fallback)
      else Ok(fallback)
  }

  // ------------------------------------------------------------ lemmas

  /** An absent or empty id selects the first entry. */
  lemma NoIdSelectsFirst(forms: seq<FormConfig>, param: FormParam)
    requires forms != []
    requires SelectedFormId(param).None? || SelectedFormId(param) == Some("")
    ensures ResolveForm(forms, param) == Ok(forms[0])
  {
  }

  /** An id that some entry has selects the first entry with it. */
  lemma KnownIdSelectsFirstMatch(forms: seq<FormConfig>, id: string, i: nat)
    requires i < |forms| && forms[i].id == id && id != ""
    requires forall j :: 0 <= j < i ==> forms[j].id != id
    ensures ResolveForm(forms, Single(id)) == Ok(forms[i])
  {
    var r := FindById(forms, id);
    var k :| 0 <= k < |forms| && forms[k] == r.value && r.value.id == id
             && forall j :: 0 <= j < k ==> forms[j].id != id;
    assert k == i;
  }

  /** An id no entry has falls back to the first entry. */
  lemma UnknownIdFallsBack(forms: seq<FormConfig>, id: string)
    requires forms != []
    requires forall i :: 0 <= i < |forms| ==> forms[i].id != id
    ensures ResolveForm(forms, Single(id)) == Ok(forms[0])
  {
  }

  /** A repeated parameter is resolved by its first value alone. */
  lemma ArrayParamUsesFirst(forms: seq<FormConfig>, first: string, rest: seq<string>)
    ensures ResolveForm(forms, Several([first] + rest)) == ResolveForm(forms, Single(first))
  {
  }

  /** On the shipped table the page always renders an entry, and it falls
      back to the transcript request. */
  lemma ShippedTableFallback(param: FormParam)
    requires SelectedFormId(param).None? || FindById(Forms, SelectedFormId(param).value).None?
    ensures ResolveForm(Forms, param).Ok?
    ensures ResolveForm(Forms, param).value.id == "transcript"
  {
  }
}
