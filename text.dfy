/**
 * The pieces of Java's and Spring's string handling that the client relies on:
 * appending a null reference, `String.trim`, `StringUtils.hasText`, `String.indexOf`,
 * `String.endsWith`, `Boolean.parseBoolean`, and the `&`-separated fields of a query string.
 */
module Text {
  import opened Wrappers

  /** `StringBuilder.append(String)` and `+` write a null reference as the four characters "null". */
  function JavaString(s: Option<string>): string {
    if s.Some? then s.value else "null"
  }

  /** `Character.isWhitespace`: the Unicode space separators except the no-break spaces, and the ASCII controls 9-13 and 28-31. */
  predicate IsWhitespace(c: char) {
    c == ' ' || ('\t' <= c <= '\r') || ('\U{1C}' <= c <= '\U{1F}')
    || c == '\U{1680}' || ('\U{2000}' <= c <= '\U{2006}') || ('\U{2008}' <= c <= '\U{200A}')
    || c == '\U{2028}' || c == '\U{2029}' || c == '\U{205F}' || c == '\U{3000}'
  }

  /** `StringUtils.hasText`: not null and holding at least one non-whitespace character. */
  predicate HasText(s: Option<string>) {
    s.Some? && exists i :: 0 <= i < |s.value| && !IsWhitespace(s.value[i])
  }

  /** Where `String.trim`'s result starts: the first position at or after `i` holding a character above U+0020. */
  function TrimFrom(s: string, i: nat): (j: nat)
    requires i <= |s|
    ensures i <= j <= |s|
    ensures forall k :: i <= k < j ==> s[k] <= ' '
    ensures j < |s| ==> s[j] > ' '
    decreases |s| - i
  {
    if i < |s| && s[i] <= ' ' then TrimFrom(s, i + 1) else i
  }

  /** Where `String.trim`'s result ends: the position after the last character above U+0020 in `s[lo..j]`. */
  function TrimTo(s: string, lo: nat, j: nat): (e: nat)
    requires lo <= j <= |s|
    ensures lo <= e <= j
    ensures forall k :: e <= k < j ==> s[k] <= ' '
    ensures e > lo ==> s[e - 1] > ' '
  {
    if j > lo && s[j - 1] <= ' ' then TrimTo(s, lo, j - 1) else j
  }

  /** `String.trim`: the input with the characters at or below U+0020 removed from both ends. */
  function Trim(s: string): (r: string)
    ensures r != [] ==> r[0] > ' ' && r[|r| - 1] > ' '
    // a slice of the input, and everything cut away on either side is at or below U+0020
    ensures exists i, j :: 0 <= i <= j <= |s| && r == s[i..j]
                           && forall k :: 0 <= k < i || j <= k < |s| ==> s[k] <= ' '
  {
    var i := TrimFrom(s, 0);
    var j := TrimTo(s, i, |s|);
    assert j > i ==> s[i] > ' ';
    s[i..j]
  }

  predicate StartsWith(s: string, prefix: string) {
    |prefix| <= |s| && s[..|prefix|] == prefix
  }

  predicate EndsWith(s: string, suffix: string) {
    |suffix| <= |s| && s[|s| - |suffix|..] == suffix
  }

  /** `pat` occurs in `s` starting at position `k`. */
  predicate OccursAt(s: string, pat: string, k: int) {
    0 <= k && k + |pat| <= |s| && s[k..k + |pat|] == pat
  }

  predicate Contains(s: string, pat: string) {
    exists k | 0 <= k <= |s| :: OccursAt(s, pat, k)
  }

  /** `s.indexOf(pat, from)`: the first occurrence at or after `from`, or -1. */
  function IndexFrom(s: string, pat: string, from: nat): (r: int)
    ensures r == -1 || (from <= r && OccursAt(s, pat, r))
    ensures forall k :: from <= k && (r == -1 || k < r) ==> !OccursAt(s, pat, k)
    decreases |s| - from
  {
    if from + |pat| > |s| then -1
    else if s[from..from + |pat|] == pat then from
    else IndexFrom(s, pat, from + 1)
  }

  /** `s.indexOf(pat)`. */
  function IndexOf(s: string, pat: string): (r: int)
    ensures r == -1 <==> !Contains(s, pat)
    ensures r != -1 ==> OccursAt(s, pat, r) && forall k :: 0 <= k < r ==> !OccursAt(s, pat, k)
  {
    IndexFrom(s, pat, 0)
  }

  /** An occurrence inside a prefix is an occurrence in the whole string. */
  lemma OccursInPrefix(s: string, n: nat, pat: string, k: int)
    requires n <= |s| && OccursAt(s[..n], pat, k)
    ensures OccursAt(s, pat, k)
  {
    assert s[..n][k..k + |pat|] == s[k..k + |pat|];
  }

  /** An occurrence of `"&" + pat` contains an occurrence of `pat` one position later. */
  lemma OccursAfterAmpersand(s: string, pat: string, k: int)
    requires OccursAt(s, "&" + pat, k)
    ensures OccursAt(s, pat, k + 1)
  {
    assert s[k + 1..k + 1 + |pat|] == s[k..k + 1 + |pat|][1..];
  }

  /** `Boolean.parseBoolean`: true exactly for a non-null "true" in any letter case. */
  predicate ParseBoolean(s: Option<string>) {
    s.Some? && |s.value| == 4
    && s.value[0] in "tT" && s.value[1] in "rR" && s.value[2] in "uU" && s.value[3] in "eE"
  }

  /** The `&`-separated fields of a query string, as a server splits it (empty fields kept). */
  function Fields(s: string): (r: seq<string>)
    ensures |r| >= 1
  {
    if s == [] then [""]
    else if s[0] == '&' then [""] + Fields(s[1..])
    else var rest := Fields(s[1..]); [[s[0]] + rest[0]] + rest[1..]
  }

  /** Fields joined with `&`, the way a query string is written. */
  function JoinFields(fs: seq<string>): string {
    if fs == [] then ""
    else if |fs| == 1 then fs[0]
    else fs[0] + "&" + JoinFields(fs[1..])
  }

  /** Appending one field appends `&` and the field to the text. */
  lemma {:induction false} JoinAppend(fs: seq<string>, x: string)
    requires |fs| >= 1
    ensures JoinFields(fs + [x]) == JoinFields(fs) + "&" + x
  {
    if |fs| == 1 {
      assert fs + [x] == [fs[0], x];
      assert (fs + [x])[1..] == [x];
    } else {
      JoinAppend(fs[1..], x);
      assert (fs + [x])[1..] == fs[1..] + [x];
    }
  }

  lemma {:induction false} FieldsOfField(a: string)
    requires '&' !in a
    ensures Fields(a) == [a]
  {
    if a != [] {
      FieldsOfField(a[1..]);
      assert [a[0]] + a[1..] == a;
    }
  }

  lemma {:induction false} FieldsCons(a: string, b: string)
    requires '&' !in a
    ensures Fields(a + "&" + b) == [a] + Fields(b)
  {
    var s := a + "&" + b;
    if a == [] {
      assert s == "&" + b && s[1..] == b;
    } else {
      assert s[0] == a[0] && s[1..] == a[1..] + "&" + b;
      FieldsCons(a[1..], b);
      assert [a[0]] + a[1..] == a;
    }
  }

  /** Joining fields free of `&` and splitting again gives the same fields back. */
  lemma {:induction false} FieldsOfJoin(fs: seq<string>)
    requires |fs| >= 1
    requires forall i :: 0 <= i < |fs| ==> '&' !in fs[i]
    ensures Fields(JoinFields(fs)) == fs
  {
    if |fs| == 1 {
      FieldsOfField(fs[0]);
    } else {
      FieldsOfJoin(fs[1..]);
      FieldsCons(fs[0], JoinFields(fs[1..]));
      assert [fs[0]] + fs[1..] == fs;
    }
  }
}
