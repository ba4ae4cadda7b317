/** The form catalogue (app/forms/page.tsx): the category list built from
    the forms' tags, and the search and category filter. */
module FormsCatalog {
  import opened Js
  import opened Seqs

  /** The fields of a `form_types` row the page filters on. */
  datatype CatalogForm = CatalogForm(
    id: string,
    name: string,
    description: Option<string>,
    tags: Option<seq<string>>)

  const AllCategories := "All Categories"

  /** `form.tags || []` */
  function TagsOf(f: CatalogForm): seq<string> {
    if f.tags.Some? then f.tags.value else []
  }

  /** `forms.flatMap(f => f.tags || [])` */
  function AllTags(forms: seq<CatalogForm>): (r: seq<string>)
    ensures forall t :: t in r <==> exists f :: f in forms && t in TagsOf(f)
  {
    if forms == [] then []
    else
      var rest := AllTags(forms[1..]);
      assert forall f :: f in forms <==> f == forms[0] || f in forms[1..];
      TagsOf(forms[0]) + rest
  }

  /** `["All Categories", ...Array.from(new Set(tags)).sort()]` */
  function AvailableCategories(forms: seq<CatalogForm>): (r: seq<string>)
    ensures |r| >= 1 && r[0] == AllCategories
    ensures forall t :: t in r[1..] <==> exists f :: f in forms && t in TagsOf(f)
    ensures StrictlySorted(r[1..])
  {
    var tags := SortDistinct(AllTags(forms));
    assert ([AllCategories] + tags)[1..] == tags;
    [AllCategories] + tags
  }

  /** The tail of the category list is the one sorted list of distinct tags:
      any strictly sorted list holding exactly the tags is it. */
  lemma CategoriesAreTheSortedTags(forms: seq<CatalogForm>, tags: seq<string>)
    requires StrictlySorted(tags)
    requires forall t :: t in tags <==> exists f :: f in forms && t in TagsOf(f)
    ensures AvailableCategories(forms) == [AllCategories] + tags
  {
    var r := AvailableCategories(forms);
    StrictlySortedUnique(r[1..], tags);
    assert r == [r[0]] + r[1..];
  }

  /** Forms without tags add no category. */
  lemma UntaggedFormsAddNothing(forms: seq<CatalogForm>, f: CatalogForm)
    requires f.tags.None?
    ensures AvailableCategories(forms + [f]) == AvailableCategories(forms)
  {
    var r := AvailableCategories(forms);
    forall t ensures t in r[1..] <==> exists g :: g in forms + [f] && t in TagsOf(g) {
      if exists g :: g in forms + [f] && t in TagsOf(g) {
        var g :| g in forms + [f] && t in TagsOf(g);
        assert g in forms;
      }
    }
    CategoriesAreTheSortedTags(forms + [f], r[1..]);
    assert r == [r[0]] + r[1..];
  }

  // ------------------------------------------------------------ filter

  /** The name matches, or the description does when it is non-empty. */
  predicate MatchesSearch(f: CatalogForm, query: string) {
    IncludesIgnoringCase(f.name, query)
    || (Truthy(f.description) && IncludesIgnoringCase(f.description.value, query))
  }

  predicate MatchesCategory(f: CatalogForm, category: string) {
    category == AllCategories || category in TagsOf(f)
  }

  /** `filteredForms` */
  function FilteredForms(forms: seq<CatalogForm>, query: string, category: string): (r: seq<CatalogForm>)
    ensures forall f :: f in r <==> f in forms && MatchesSearch(f, query) && MatchesCategory(f, category)
    ensures IsSubsequence(r, forms)
  {
    var keep := (f: CatalogForm) => MatchesSearch(f, query) && MatchesCategory(f, category);
    FilterIsSubsequence(forms, keep);
    Filter(forms, keep)
  }

  /** The empty query under "All Categories" shows every form. */
  lemma NoFilterKeepsAll(forms: seq<CatalogForm>)
    ensures FilteredForms(forms, "", AllCategories) == forms
  {
    forall f | f in forms ensures MatchesSearch(f, "") {
      EmptyQueryMatches(f.name);
    }
    FilterKeepsAll(forms, (f: CatalogForm) => MatchesSearch(f, "") && MatchesCategory(f, AllCategories));
  }

  /** A form without tags is shown only under "All Categories". */
  lemma UntaggedFormOnlyUnderAll(forms: seq<CatalogForm>, f: CatalogForm, query: string, category: string)
    requires f.tags.None? && category != AllCategories
    ensures f !in FilteredForms(forms, query, category)
  {
  }

  /** Every category offered beyond "All Categories" selects at least the
      forms carrying that tag, for the empty query. */
  lemma OfferedCategoryIsInhabited(forms: seq<CatalogForm>, category: string)
    requires category in AvailableCategories(forms)[1..]
    ensures exists f :: f in FilteredForms(forms, "", category)
  {
    var f :| f in forms && category in TagsOf(f);
    EmptyQueryMatches(f.name);
    assert f in FilteredForms(forms, "", category);
  }

  /** A tag spelled "All Categories" is listed twice: the list does not
      remove it from the tags. */
  lemma AllCategoriesTagListedTwice(f: CatalogForm)
    requires f.tags == Some([AllCategories])
    ensures AvailableCategories([f]) == [AllCategories, AllCategories]
  {
    assert TagsOf(f) == [AllCategories];
    forall t ensures t in [AllCategories] <==> exists g :: g in [f] && t in TagsOf(g) {
      if t in [AllCategories] {
        assert f in [f] && t in TagsOf(f);
      }
    }
    CategoriesAreTheSortedTags([f], [AllCategories]);
  }
}
