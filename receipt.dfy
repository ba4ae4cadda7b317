/** The receipt endpoint's request handling (app/api/receipt/route.ts):
    `parseCookies` and the derivation of the student id, form name and file
    name in `GET`. Percent-decoding is a parameter `decode`, a partial
    function whose `None` stands for the URIError `decodeURIComponent`
    throws; the PDF rendering is not part of this model. */
module Receipt {
  import opened Js

  /** `decodeURIComponent` threw. */
  datatype UriError = UriError

  /** `decodeURIComponent` leaves a string without '%' unchanged. */
  ghost predicate DecodesPlainText(decode: string -> Option<string>) {
    forall s :: '%' !in s ==> decode(s) == Some(s)
  }

  // ------------------------------------------------------ parseCookies

  /** One `;`-separated part, split at its first '=' and trimmed on both
      sides (PartSplitsAtFirstEquals shows this is what
      `const [k, ...v] = part.split('=')` with `k.trim()` and
      `v.join('=').trim()` compute). */
  datatype CookiePart = CookiePart(key: string, value: string)

  function SplitPart(part: string): CookiePart {
    if '=' in part then
      var i := FirstIndex(part, '=');
      CookiePart(Trim(part[..i]), Trim(part[i + 1..]))
    else
      CookiePart(Trim(part), "")
  }

  /** Every part of the header, split at its first '='. */
  function SplitParts(parts: seq<string>): (r: seq<CookiePart>)
    ensures |r| == |parts|
    ensures forall i :: 0 <= i < |r| ==> r[i] == SplitPart(parts[i])
  {
    seq(|parts|, i requires 0 <= i < |parts| => SplitPart(parts[i]))
  }

  /** One iteration of the loop: `if (key) map[key] = decodeURIComponent(val)`. */
  function ApplyPart(m: map<string, string>, p: CookiePart, decode: string -> Option<string>): Result<map<string, string>, UriError> {
    if p.key == "" then Ok(m)
    else match decode(p.value)
      case None => Err(UriError)
      case Some(v) => Ok(m[p.key := v])
  }

  /** The map after the loop has run over `parts`, or the error it threw. */
  function ParseParts(parts: seq<CookiePart>, decode: string -> Option<string>): Result<map<string, string>, UriError>
    decreases |parts|
  {
    if parts == [] then Ok(map[])
    else match ParseParts(parts[..|parts| - 1], decode)
      case Err(e) => Err(e)
      case Ok(m) => ApplyPart(m, parts[|parts| - 1], decode)
  }

  /** The value `parseCookies(cookieHeader)` returns or throws. */
  function CookieMap(cookieHeader: Option<string>, decode: string -> Option<string>): Result<map<string, string>, UriError> {
    if !Truthy(cookieHeader) then Ok(map[])
    else ParseParts(SplitParts(Split(cookieHeader.value, ';')), decode)
  }

  /** `parseCookies`: fills the map part by part and stops at the first part
      whose value does not decode; an absent or empty header gives the empty
      map. */
  method ParseCookies(cookieHeader: Option<string>, decode: string -> Option<string>)
    returns (r: Result<map<string, string>, UriError>)
    ensures r == CookieMap(cookieHeader, decode)
    ensures r.Ok? ==> forall k :: k in r.value ==> k != ""
  {
    var m: map<string, string> := map[];
    if !Truthy(cookieHeader) {
      return Ok(m);
    }
    var parts := Split(cookieHeader.value, ';');
    ghost var split := SplitParts(parts);
    for i := 0 to |parts|
      invariant ParseParts(split[..i], decode) == Ok(m)
      invariant forall k :: k in m ==> k != ""
    {
      assert split[..i + 1][..i] == split[..i];
      var CookiePart(key, val) := SplitPart(parts[i]);
      if key != "" {
        var decoded := decode(val);
        if decoded.None? {
          ErrorPersists(split, i + 1, decode);
          return Err(UriError);
        }
        m := m[key := decoded.value];
      }
    }
    assert split[..|parts|] == split;
    return Ok(m);
  }

  /** Once the loop has thrown, later parts change nothing. */
  lemma {:induction false} ErrorPersists(parts: seq<CookiePart>, k: nat, decode: string -> Option<string>)
    requires k <= |parts| && ParseParts(parts[..k], decode).Err?
    ensures ParseParts(parts, decode) == Err(UriError)
    decreases |parts| - k
  {
    if k < |parts| {
      assert parts[..k + 1][..k] == parts[..k];
      ErrorPersists(parts, k + 1, decode);
    } else {
      assert parts[..k] == parts;
      assert ParseParts(parts, decode).error == UriError;
    }
  }

  // ------------------------------------------------------------ lemmas

  /** A null or empty header gives the empty map. */
  lemma EmptyHeaderGivesEmptyMap(decode: string -> Option<string>)
    ensures CookieMap(None, decode) == Ok(map[])
    ensures CookieMap(Some(""), decode) == Ok(map[])
  {
  }

  /** The part's key is the trimmed head of `part.split('=')` and its value
      the trimmed join of the rest, so later '=' characters stay in the value
      and a part without '=' has the empty value. */
  lemma PartSplitsAtFirstEquals(part: string)
    ensures SplitPart(part).key == Trim(Split(part, '=')[0])
    ensures SplitPart(part).value == Trim(Join(Split(part, '=')[1..], '='))
    ensures '=' !in part ==> SplitPart(part) == CookiePart(Trim(part), "")
  {
    SplitAtFirst(part, '=');
  }

  /** With a decoder that leaves plain text alone, a part with no '=' maps
      its key to "". */
  lemma PartWithoutEqualsMapsToEmpty(m: map<string, string>, part: string, decode: string -> Option<string>)
    requires DecodesPlainText(decode)
    requires '=' !in part && Trim(part) != ""
    ensures ApplyPart(m, SplitPart(part), decode) == Ok(m[Trim(part) := ""])
  {
    PartSplitsAtFirstEquals(part);
    assert '%' !in "";
  }

  /** The keys of the parsed map are exactly the non-empty keys of the parts. */
  lemma {:induction false} ParsedKeys(parts: seq<CookiePart>, decode: string -> Option<string>, m: map<string, string>)
    requires ParseParts(parts, decode) == Ok(m)
    ensures forall k :: k in m <==> k != "" && exists i :: 0 <= i < |parts| && parts[i].key == k
    decreases |parts|
  {
    if parts != [] {
      var init := parts[..|parts| - 1];
      var m0 := ParseParts(init, decode).value;
      ParsedKeys(init, decode, m0);
      forall k ensures k in m <==> k != "" && exists i :: 0 <= i < |parts| && parts[i].key == k {
        if k != "" && exists i :: 0 <= i < |parts| && parts[i].key == k {
          var i :| 0 <= i < |parts| && parts[i].key == k;
          if i < |parts| - 1 {
            assert init[i] == parts[i];
          }
        }
        if k in m0 {
          var i :| 0 <= i < |init| && init[i].key == k;
          assert parts[i] == init[i];
        }
      }
    }
  }

  /** The value stored under a key is the decoded value of the key's last
      part: a later occurrence overwrites an earlier one. */
  lemma {:induction false} LastOccurrenceWins(parts: seq<CookiePart>, decode: string -> Option<string>, m: map<string, string>, i: nat)
    requires ParseParts(parts, decode) == Ok(m)
    requires i < |parts| && parts[i].key != ""
    requires forall j :: i < j < |parts| ==> parts[j].key != parts[i].key
    ensures parts[i].key in m
    ensures decode(parts[i].value) == Some(m[parts[i].key])
    decreases |parts|
  {
    var init := parts[..|parts| - 1];
    var m0 := ParseParts(init, decode).value;
    if i < |parts| - 1 {
      assert init[i] == parts[i];
      forall j | i < j < |init| ensures init[j].key != init[i].key {
        assert init[j] == parts[j];
      }
      LastOccurrenceWins(init, decode, m0, i);
    }
  }

  /** The parse throws iff some part with a non-empty key fails to decode. */
  lemma {:induction false} ParseFailsIff(parts: seq<CookiePart>, decode: string -> Option<string>)
    ensures ParseParts(parts, decode).Err?
            <==> exists i :: 0 <= i < |parts| && parts[i].key != "" && decode(parts[i].value).None?
    decreases |parts|
  {
    if parts != [] {
      var init := parts[..|parts| - 1];
      ParseFailsIff(init, decode);
      if exists i :: 0 <= i < |init| && init[i].key != "" && decode(init[i].value).None? {
        var i :| 0 <= i < |init| && init[i].key != "" && decode(init[i].value).None?;
        assert parts[i] == init[i];
      }
      if exists i :: 0 <= i < |parts| && parts[i].key != "" && decode(parts[i].value).None? {
        var i :| 0 <= i < |parts| && parts[i].key != "" && decode(parts[i].value).None?;
        if i < |parts| - 1 {
          assert init[i] == parts[i];
        }
      }
    }
  }

  // --------------------------------------------------------------- GET

  /** `url.searchParams.get(name)`: the first value given for name. */
  function QueryGet(query: seq<(string, string)>, name: string): (r: Option<string>)
    ensures r.Some? <==> exists i :: 0 <= i < |query| && query[i].0 == name
    ensures r.Some? ==> exists i :: 0 <= i < |query| && query[i] == (name, r.value)
                                     && forall j :: 0 <= j < i ==> query[j].0 != name
  {
    if query == [] then None
    else if query[0].0 == name then Some(query[0].1)
    else
      var r := QueryGet(query[1..], name);
      assert r.Some? ==> exists i :: 0 <= i < |query| && query[i] == (name, r.value)
                                     && forall j :: 0 <= j < i ==> query[j].0 != name by {
        if r.Some? {
          var i :| 0 <= i < |query[1..]| && query[1..][i] == (name, r.value)
                   && forall j :: 0 <= j < i ==> query[1..][j].0 != name;
          assert query[i + 1] == (name, r.value);
          assert forall j :: 0 <= j < i + 1 ==> query[j].0 != name by {
            forall j | 0 <= j < i + 1 ensures query[j].0 != name {
              if j > 0 { assert query[j] == query[1..][j - 1]; }
            }
          }
        }
      }
      r
  }

  function Lookup(m: map<string, string>, key: string): Option<string> {
    if key in m then Some(m[key]) else None
  }

  /** `cookies.studentId || url.searchParams.get('studentId') || 'N/A'` */
  function StudentIdOf(cookies: map<string, string>, query: seq<(string, string)>): (r: string)
    ensures r != ""
    ensures Truthy(Lookup(cookies, "studentId")) ==> r == cookies["studentId"]
    ensures !Truthy(Lookup(cookies, "studentId")) && Truthy(QueryGet(query, "studentId"))
            ==> r == QueryGet(query, "studentId").value
    ensures !Truthy(Lookup(cookies, "studentId")) && !Truthy(QueryGet(query, "studentId")) ==> r == "N/A"
  {
    OrElse(Lookup(cookies, "studentId"), OrElse(QueryGet(query, "studentId"), "N/A"))
  }

  /** `url.searchParams.get('title') || url.searchParams.get('formName') || 'Untitled'` */
  function FormNameOf(query: seq<(string, string)>): (r: string)
    ensures r != ""
    ensures Truthy(QueryGet(query, "title")) ==> r == QueryGet(query, "title").value
    ensures !Truthy(QueryGet(query, "title")) && Truthy(QueryGet(query, "formName"))
            ==> r == QueryGet(query, "formName").value
    ensures !Truthy(QueryGet(query, "title")) && !Truthy(QueryGet(query, "formName")) ==> r == "Untitled"
  {
    OrElse(QueryGet(query, "title"), OrElse(QueryGet(query, "formName"), "Untitled"))
  }

  /** `receipt-${studentId}.pdf` */
  function ReceiptFilename(studentId: string): (r: string)
    ensures StartsWith(r, "receipt-") && EndsWith(r, ".pdf")
    ensures |r| == |studentId| + 12 && r[8..|r| - 4] == studentId
  {
    "receipt-" + studentId + ".pdf"
  }

  /** The response of `GET`: the receipt's fields, or the 500 response any
      throw inside the handler ends in. */
  datatype ReceiptResponse =
    | Pdf(studentId: string, formName: string, filename: string)
    | ServerError(status: int, body: string)

  /** `GET`. `renderFails` says whether rendering the receipt or reading its
      stream rejected; both are caught like a URIError from the cookies. */
  function ReceiptGet(cookieHeader: Option<string>, query: seq<(string, string)>,
                      decode: string -> Option<string>, renderFails: bool): (r: ReceiptResponse)
    ensures r.ServerError? <==> CookieMap(cookieHeader, decode).Err? || renderFails
    ensures r.ServerError? ==> r.status == 500 && r.body == "Error generating PDF"
    ensures r.Pdf? ==> r.studentId == StudentIdOf(CookieMap(cookieHeader, decode).value, query)
                       && r.formName == FormNameOf(query)
                       && r.filename == ReceiptFilename(r.studentId)
  {
    match CookieMap(cookieHeader, decode)
    case Err(_) => ServerError(500, "Error generating PDF")
    case Ok(cookies) =>
      if renderFails then ServerError(500, "Error generating PDF")
      else
        var studentId := StudentIdOf(cookies, query);
        Pdf(studentId, FormNameOf(query), ReceiptFilename(studentId))
  }

  /** A successful response names a non-empty student id and form name, and
      a file name the id can be read back from. */
  lemma ReceiptFieldsPresent(cookieHeader: Option<string>, query: seq<(string, string)>,
                             decode: string -> Option<string>, renderFails: bool)
    requires ReceiptGet(cookieHeader, query, decode, renderFails).Pdf?
    ensures var r := ReceiptGet(cookieHeader, query, decode, renderFails);
            r.studentId != "" && r.formName != ""
            && r.filename[8..|r.filename| - 4] == r.studentId
  {
  }

  /** An empty `studentId` cookie falls through to the query parameter. */
  lemma EmptyCookieFallsThrough(cookies: map<string, string>, query: seq<(string, string)>, id: string)
    requires cookies == map["studentId" := ""]
    requires query == [("studentId", id)] && id != ""
    ensures StudentIdOf(cookies, query) == id
  {
  }
}
