/** JavaScript string and nullable-value semantics that the portal's
    components rely on, written out once so that every page model uses the
    same definitions.

    - `toLowerCase` is ASCII lower-casing (other letters are left as they are);
    - `includes`, `startsWith` and `endsWith` are substring tests, and
      `includes("")` is true;
    - `trim` removes the characters ECMAScript counts as white space or line
      terminators from both ends;
    - `split` on a one-character separator and `join` are inverses;
    - `replace` with a string pattern replaces the first occurrence only;
    - `a || b` on a nullable string treats both null and "" as false. */
module Js {

  datatype Option<T> = None | Some(value: T)

  datatype Result<T, E> = Ok(value: T) | Err(error: E)

  /** A nullable string in a JavaScript boolean context: null and "" are false. */
  predicate Truthy(s: Option<string>) {
    s.Some? && s.value != ""
  }

  /** `a || b` for a nullable string `a` and a string `b`. */
  function OrElse(a: Option<string>, b: string): string {
    if Truthy(a) then a.value else b
  }

  // ---------------------------------------------------------------- case

  function LowerChar(c: char): char {
    if 'A' <= c <= 'Z' then (c as int + 32) as char else c
  }

  predicate IsUpper(c: char) {
    'A' <= c <= 'Z'
  }

  /** `s.toLowerCase()` restricted to ASCII letters. */
  function ToLower(s: string): (r: string)
    ensures |r| == |s|
    ensures forall i :: 0 <= i < |s| ==> r[i] == LowerChar(s[i])
    ensures forall i :: 0 <= i < |r| ==> !IsUpper(r[i])
  {
    seq(|s|, i requires 0 <= i < |s| => LowerChar(s[i]))
  }

  lemma ToLowerIdempotent(s: string)
    ensures ToLower(ToLower(s)) == ToLower(s)
  {
  }

  /** A string with no upper-case ASCII letter is its own lower case. */
  lemma LowerCaseUnchanged(s: string)
    requires forall i :: 0 <= i < |s| ==> !IsUpper(s[i])
    ensures ToLower(s) == s
  {
  }

  // ----------------------------------------------------------- substrings

  /** q occurs in s starting at position i. */
  predicate OccursAt(s: string, q: string, i: int) {
    0 <= i <= |s| - |q| && s[i..i + |q|] == q
  }

  /** `s.includes(q)`: q occurs in s at some position. */
  predicate Includes(s: string, q: string) {
    exists i | 0 <= i <= |s| - |q| :: OccursAt(s, q, i)
  }

  /** `s.startsWith(p)`. */
  predicate StartsWith(s: string, p: string) {
    |p| <= |s| && s[..|p|] == p
  }

  /** `s.endsWith(p)`. */
  predicate EndsWith(s: string, p: string) {
    |p| <= |s| && s[|s| - |p|..] == p
  }

  /** `includes("")` is true of every string. */
  lemma IncludesEmpty(s: string)
    ensures Includes(s, "")
  {
    assert OccursAt(s, "", 0);
  }

  /** `s.toLowerCase().includes(q.toLowerCase())`, the search test of the
      list pages. */
  predicate IncludesIgnoringCase(s: string, q: string) {
    Includes(ToLower(s), ToLower(q))
  }

  /** The empty query matches every string. */
  lemma EmptyQueryMatches(s: string)
    ensures IncludesIgnoringCase(s, "")
  {
    IncludesEmpty(ToLower(s));
  }

  /** Lower-casing the query first changes nothing. */
  lemma QueryCaseIrrelevant(s: string, q: string)
    ensures IncludesIgnoringCase(s, ToLower(q)) == IncludesIgnoringCase(s, q)
  {
    ToLowerIdempotent(q);
  }

  /** An exact occurrence is also a case-insensitive one. */
  lemma ExactMatchIgnoringCase(s: string, q: string)
    requires Includes(s, q)
    ensures IncludesIgnoringCase(s, q)
  {
    var i :| 0 <= i <= |s| - |q| && OccursAt(s, q, i);
    var ls, lq := ToLower(s), ToLower(q);
    assert ls[i..i + |q|] == lq by {
      forall k | 0 <= k < |q| ensures ls[i..i + |q|][k] == lq[k] {
        assert s[i + k] == q[k] by {
          assert s[i..i + |q|][k] == q[k];
        }
      }
    }
    assert OccursAt(ls, lq, i);
  }

  // --------------------------------------------------------------- trim

  /** The code points ECMAScript's `trim` removes (WhiteSpace and LineTerminator). */
  predicate IsJsSpace(c: char) {
    c == '\t' || c == '\n' || c == '\U{B}' || c == '\U{C}' || c == '\r' || c == ' '
    || c == '\U{A0}' || c == '\U{1680}' || ('\U{2000}' <= c <= '\U{200A}')
    || c == '\U{2028}' || c == '\U{2029}' || c == '\U{202F}' || c == '\U{205F}'
    || c == '\U{3000}' || c == '\U{FEFF}'
  }

  /** `s.trimStart()` */
  function TrimStart(s: string): (r: string)
    ensures |r| <= |s|
  {
    if |s| > 0 && IsJsSpace(s[0]) then TrimStart(s[1..]) else s
  }

  /** `s.trimEnd()` */
  function TrimEnd(s: string): (r: string)
    ensures |r| <= |s|
  {
    if |s| > 0 && IsJsSpace(s[|s| - 1]) then TrimEnd(s[..|s| - 1]) else s
  }

  /** `trimStart` removes exactly the leading white space. */
  lemma {:induction false} TrimStartRemovesLeadingSpace(s: string)
    ensures TrimStart(s) == s[|s| - |TrimStart(s)|..]
    ensures forall k :: 0 <= k < |s| - |TrimStart(s)| ==> IsJsSpace(s[k])
    ensures TrimStart(s) == "" || !IsJsSpace(TrimStart(s)[0])
  {
    if |s| > 0 && IsJsSpace(s[0]) {
      TrimStartRemovesLeadingSpace(s[1..]);
    }
  }

  /** `trimEnd` removes exactly the trailing white space. */
  lemma {:induction false} TrimEndRemovesTrailingSpace(s: string)
    ensures TrimEnd(s) == s[..|TrimEnd(s)|]
    ensures forall k :: |TrimEnd(s)| <= k < |s| ==> IsJsSpace(s[k])
    ensures TrimEnd(s) == "" || !IsJsSpace(TrimEnd(s)[|TrimEnd(s)| - 1])
  {
    if |s| > 0 && IsJsSpace(s[|s| - 1]) {
      TrimEndRemovesTrailingSpace(s[..|s| - 1]);
    }
  }

  /** `s.trim()`: s without its leading and trailing white space. */
  function Trim(s: string): (r: string)
    ensures |r| <= |s|
  {
    TrimEnd(TrimStart(s))
  }

  /** The trimmed string is the infix of s that only white space surrounds,
      and it neither starts nor ends with white space. */
  lemma TrimIsInfix(s: string)
    ensures exists i, j :: 0 <= i <= j <= |s| && Trim(s) == s[i..j]
                           && (forall k :: 0 <= k < i ==> IsJsSpace(s[k]))
                           && (forall k :: j <= k < |s| ==> IsJsSpace(s[k]))
    ensures Trim(s) == "" || (!IsJsSpace(Trim(s)[0]) && !IsJsSpace(Trim(s)[|Trim(s)| - 1]))
  {
    var t := TrimStart(s);
    TrimStartRemovesLeadingSpace(s);
    TrimEndRemovesTrailingSpace(t);
    var r := TrimEnd(t);
    var i := |s| - |t|;
    assert r == s[i..i + |r|];
    if r != "" {
      assert r[0] == t[0];
    }
  }

  // -------------------------------------------------------- split / join

  /** The index of the first occurrence of c in s. */
  function FirstIndex(s: string, c: char): (r: nat)
    requires c in s
    ensures r < |s| && s[r] == c && c !in s[..r]
  {
    if s[0] == c then 0 else 1 + FirstIndex(s[1..], c)
  }

  /** `s.split(c)` for a one-character separator. */
  function Split(s: string, c: char): (r: seq<string>)
    ensures |r| >= 1
    ensures forall k :: 0 <= k < |r| ==> c !in r[k]
    decreases |s|
  {
    if c in s then
      var i := FirstIndex(s, c);
      [s[..i]] + Split(s[i + 1..], c)
    else
      [s]
  }

  /** `parts.join(c)`; the join of no parts is "". */
  function Join(parts: seq<string>, c: char): string {
    if |parts| == 0 then ""
    else if |parts| == 1 then parts[0]
    else parts[0] + [c] + Join(parts[1..], c)
  }

  /** Joining the pieces of a split restores the string. */
  lemma {:induction false} JoinSplit(s: string, c: char)
    ensures Join(Split(s, c), c) == s
    decreases |s|
  {
    if c in s {
      var i := FirstIndex(s, c);
      var rest := Split(s[i + 1..], c);
      JoinSplit(s[i + 1..], c);
      JoinCons(s[..i], rest, c);
      assert s == s[..i] + [c] + s[i + 1..];
    }
  }

  /** Joining a head onto a non-empty list puts one separator between them. */
  lemma JoinCons(head: string, rest: seq<string>, c: char)
    requires |rest| >= 1
    ensures Join([head] + rest, c) == head + [c] + Join(rest, c)
  {
    assert ([head] + rest)[1..] == rest;
  }

  /** `const [k, ...v] = s.split(c)`: the head is everything before the first
      c, and `v.join(c)` is everything after it (later c characters included);
      without any c the head is the whole string and the rest is "". */
  lemma SplitAtFirst(s: string, c: char)
    ensures c in s ==> Split(s, c)[0] == s[..FirstIndex(s, c)]
                       && Join(Split(s, c)[1..], c) == s[FirstIndex(s, c) + 1..]
    ensures c !in s ==> Split(s, c)[0] == s && Join(Split(s, c)[1..], c) == ""
  {
    if c in s {
      var i := FirstIndex(s, c);
      assert Split(s, c)[1..] == Split(s[i + 1..], c);
      JoinSplit(s[i + 1..], c);
    }
  }

  /** `s.split(c)[0]`: the text before the first c, or s when there is none. */
  function BeforeFirst(s: string, c: char): (r: string)
    ensures StartsWith(s, r) && c !in r
    ensures r == s <==> c !in s
  {
    Split(s, c)[0]
  }

  // ------------------------------------------------------------- replace

  /** `s.replace(a, b)` for one-character strings a and b: only the first
      occurrence of a is replaced. */
  function ReplaceFirst(s: string, a: char, b: char): (r: string)
    ensures |r| == |s|
    ensures a !in s ==> r == s
    ensures a in s ==> r[FirstIndex(s, a)] == b
    ensures forall k :: 0 <= k < |s| && (a !in s || k != FirstIndex(s, a)) ==> r[k] == s[k]
  {
    if a in s then
      var i := FirstIndex(s, a);
      s[..i] + [b] + s[i + 1..]
    else
      s
  }

  /** A second occurrence of a survives the replacement. */
  lemma ReplaceFirstKeepsLater(s: string, a: char, b: char, j: nat)
    requires j < |s| && s[j] == a
    requires a in s[..j]
    ensures ReplaceFirst(s, a, b)[j] == a
  {
  }

  // -------------------------------------------------------------- digits

  predicate IsAsciiDigit(c: char) {
    '0' <= c <= '9'
  }

  /** `/^\d+$/.test(s)` (without the u flag `\d` is the ASCII digits). */
  predicate AllDigits(s: string) {
    |s| > 0 && forall k :: 0 <= k < |s| ==> IsAsciiDigit(s[k])
  }
}
