/**
 * The few Rust standard-library string operations the plugin relies on, over
 * ASCII text (a `char` stands for one byte, so byte offsets and char offsets agree):
 * `str::trim`, `str::find`, `str::rfind`, `[String]::join` and `str::replace`.
 */
module Text {
  import opened Wrappers

  /** `char::is_whitespace` restricted to ASCII: tab, line feed, vertical tab, form feed, carriage return, space. */
  predicate IsWhitespace(c: char) {
    c == ' ' || ('\t' <= c <= '\r')
  }

  /** `str::trim_start`: drops the leading whitespace and nothing else. */
  function TrimStart(s: string): (r: string)
    ensures |r| <= |s| && r == s[|s| - |r|..]
    ensures r != [] ==> !IsWhitespace(r[0])
    ensures forall k :: 0 <= k < |s| - |r| ==> IsWhitespace(s[k])
    decreases |s|
  {
    if s != [] && IsWhitespace(s[0]) then TrimStart(s[1..]) else s
  }

  /** `str::trim_end`: drops the trailing whitespace and nothing else. */
  function TrimEnd(s: string): (r: string)
    ensures |r| <= |s| && r == s[..|r|]
    ensures r != [] ==> !IsWhitespace(r[|r| - 1])
    ensures forall k :: |r| <= k < |s| ==> IsWhitespace(s[k])
    decreases |s|
  {
    if s != [] && IsWhitespace(s[|s| - 1]) then TrimEnd(s[..|s| - 1]) else s
  }

  /** `pat` occurs in `s` starting at index `i`. */
  predicate OccursAt(s: string, pat: string, i: int) {
    0 <= i && i + |pat| <= |s| && s[i..i + |pat|] == pat
  }

  /** The characters of `s` from `i` on spell `pat`, one index at a time. */
  lemma OccursAtIndex(s: string, pat: string, i: int)
    requires OccursAt(s, pat, i)
    ensures forall k :: 0 <= k < |pat| ==> s[i + k] == pat[k]
  {
    forall k | 0 <= k < |pat|
      ensures s[i + k] == pat[k]
    {
      assert s[i..i + |pat|][k] == s[i + k];
    }
  }

  /**
   * `r` is what trimming `s` leaves when it starts at `i`: `r` occurs at `i`,
   * everything before and after it is whitespace, and it neither starts nor
   * ends with whitespace.
   */
  ghost predicate TrimmedAt(s: string, r: string, i: int) {
    OccursAt(s, r, i) &&
    (forall k :: 0 <= k < i ==> IsWhitespace(s[k])) &&
    (forall k :: i + |r| <= k < |s| ==> IsWhitespace(s[k])) &&
    (r != [] ==> !IsWhitespace(r[0]) && !IsWhitespace(r[|r| - 1]))
  }

  /** `str::trim`: the leading and the trailing whitespace go, and nothing else. */
  function Trim(s: string): (r: string)
    ensures exists i :: TrimmedAt(s, r, i)
  {
    var t := TrimStart(s);
    var r := TrimEnd(t);
    TrimmedFromParts(s, t, r);
    r
  }

  /** `t` is `s` without its leading whitespace and `r` is `t` without its trailing whitespace. */
  lemma TrimmedFromParts(s: string, t: string, r: string)
    requires |t| <= |s| && t == s[|s| - |t|..] && (t != [] ==> !IsWhitespace(t[0]))
    requires forall k :: 0 <= k < |s| - |t| ==> IsWhitespace(s[k])
    requires |r| <= |t| && r == t[..|r|] && (r != [] ==> !IsWhitespace(r[|r| - 1]))
    requires forall k :: |r| <= k < |t| ==> IsWhitespace(t[k])
    ensures TrimmedAt(s, r, |s| - |t|)
  {
    var i := |s| - |t|;
    forall k | 0 <= k < |r|
      ensures s[i + k] == r[k]
    {
      assert r[k] == t[k] && t[k] == s[i..][k];
    }
    assert s[i..i + |r|] == r;
    forall k | i + |r| <= k < |s|
      ensures IsWhitespace(s[k])
    {
      assert s[k] == t[k - i];
    }
  }

  /** Trimming is determined by its description: any `r` trimmed out of `s` is `Trim(s)`. */
  lemma TrimIs(s: string, r: string, i: int)
    requires TrimmedAt(s, r, i)
    ensures Trim(s) == r
  {
    var j :| TrimmedAt(s, Trim(s), j);
    TrimmedAtUnique(s, r, i, Trim(s), j);
  }

  lemma TrimmedAtUnique(s: string, r: string, i: int, r': string, j: int)
    requires TrimmedAt(s, r, i) && TrimmedAt(s, r', j)
    ensures r == r'
  {
    OccursAtIndex(s, r, i);
    OccursAtIndex(s, r', j);
    if r != [] && r' != [] {
      assert s[i + 0] == r[0] && s[j + 0] == r'[0];
      assert i == j;
      assert s[i + (|r| - 1)] == r[|r| - 1] && s[j + (|r'| - 1)] == r'[|r'| - 1];
      assert |r| == |r'|;
    }
  }

  /** The first occurrence of `pat` in `s` at or after `from`. */
  function FindFrom(s: string, pat: string, from: nat): (r: Option<nat>)
    ensures r.Some? ==> from <= r.value && OccursAt(s, pat, r.value)
    ensures r.Some? ==> forall j :: from <= j < r.value ==> !OccursAt(s, pat, j)
    ensures r.None? ==> forall j :: from <= j ==> !OccursAt(s, pat, j)
    decreases |s| - from
  {
    if from + |pat| > |s| then None
    else if s[from..from + |pat|] == pat then Some(from)
    else FindFrom(s, pat, from + 1)
  }

  /** The first occurrence at or after `from` is `i` when `pat` occurs at `i` and nowhere between `from` and `i`. */
  lemma FindFromIs(s: string, pat: string, from: nat, i: nat)
    requires from <= i && OccursAt(s, pat, i)
    requires forall j :: from <= j < i ==> !OccursAt(s, pat, j)
    ensures FindFrom(s, pat, from) == Some(i)
  {
  }

  /** `str::find`: the index of the first occurrence of `pat`, or `None`. */
  function Find(s: string, pat: string): (r: Option<nat>)
    ensures r.Some? ==> OccursAt(s, pat, r.value) && forall j :: 0 <= j < r.value ==> !OccursAt(s, pat, j)
    ensures r.None? ==> forall j :: !OccursAt(s, pat, j)
  {
    FindFrom(s, pat, 0)
  }

  /** `str::rfind` for one character: the index of its last occurrence, or `None`. */
  function RFind(s: string, c: char): (r: Option<nat>)
    ensures r.Some? ==> r.value < |s| && s[r.value] == c && forall j :: r.value < j < |s| ==> s[j] != c
    ensures r.None? ==> forall j :: 0 <= j < |s| ==> s[j] != c
    decreases |s|
  {
    if s == [] then None
    else if s[|s| - 1] == c then Some(|s| - 1)
    else RFind(s[..|s| - 1], c)
  }

  /** `[String]::join`: the parts in order with `sep` between consecutive ones. */
  function Join(parts: seq<string>, sep: string): string
    decreases |parts|
  {
    if parts == [] then ""
    else if |parts| == 1 then parts[0]
    else parts[0] + sep + Join(parts[1..], sep)
  }

  /** `str::replace`: every non-overlapping occurrence of `pat`, scanned left to right, becomes `rep`. */
  function Replace(s: string, pat: string, rep: string): string
    requires pat != []
    decreases |s|
  {
    if s == [] then ""
    else if |pat| <= |s| && s[..|pat|] == pat then rep + Replace(s[|pat|..], pat, rep)
    else [s[0]] + Replace(s[1..], pat, rep)
  }

  /** The number of occurrences of `c` in `s`. */
  function Count(s: string, c: char): nat
    decreases |s|
  {
    if s == [] then 0 else (if s[0] == c then 1 else 0) + Count(s[1..], c)
  }

  lemma {:induction false} CountAppend(a: string, b: string, c: char)
    ensures Count(a + b, c) == Count(a, c) + Count(b, c)
    decreases |a|
  {
    if a == [] {
      assert a + b == b;
    } else {
      assert (a + b)[1..] == a[1..] + b;
      CountAppend(a[1..], b, c);
    }
  }

  /** Replacing `,]` by `]` removes commas only: every `]` of the input survives. */
  lemma {:induction false} ReplaceKeepsClosers(s: string)
    ensures Count(Replace(s, ",]", "]"), ']') == Count(s, ']')
    decreases |s|
  {
    if s == [] {
    } else if 2 <= |s| && s[..2] == ",]" {
      ReplaceKeepsClosers(s[2..]);
      var rest := Replace(s[2..], ",]", "]");
      assert Replace(s, ",]", "]") == "]" + rest;
      assert ("]" + rest)[1..] == rest;
      assert s[0] == ',' && s[1] == ']' by { assert s[..2][0] == s[0] && s[..2][1] == s[1]; }
      assert s[1..][1..] == s[2..];
      assert Count(s[1..], ']') == 1 + Count(s[2..], ']');
    } else {
      ReplaceKeepsClosers(s[1..]);
      var rest := Replace(s[1..], ",]", "]");
      assert Replace(s, ",]", "]") == [s[0]] + rest;
      assert ([s[0]] + rest)[1..] == rest;
    }
  }

}
